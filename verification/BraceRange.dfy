/**
 What `{lo..hi}` and `{lo..hi..step}` expand to (`sequence` in brace.rs), told by
 the text of their ends and words: which text is a range, what each word reads as,
 and how long it is.
 */
module BraceRange {
  import opened Wrappers
  import opened Brace

  // ----------------------------------------------------------------- numerals

  /** `s` is `digits` after a sign or none. */
  ghost predicate Numeral(s: Text, sign: Text, digits: Text) {
    s == sign + digits && (sign == "" || sign == "+" || sign == "-") && digits != [] && AllDigits(digits)
  }

  /** What digits are worth: nothing, or ten times those before and the last. */
  lemma {:induction false} WorthOfDigits(digits: Text, c: char)
    requires Digit(c)
    ensures Value([]) == 0 && Value(digits + [c]) == Value(digits) * 10 + (c as int - '0' as int)
  {
    assert (digits + [c])[0..|digits|] == digits[0..|digits|];
    SameDigits(digits + [c], digits, 0, 0, |digits|);
  }

  lemma {:induction false} DigitsCover(s: Text, i: nat)
    requires i <= |s|
    ensures forall k | i <= k < i + Digits(s, i) :: Digit(s[k])
    decreases |s| - i
  {
    if i < |s| && Digit(s[i]) {
      DigitsCover(s, i + 1);
    }
  }

  /** A numeral reads as what its digits are worth, when that fits. */
  lemma {:induction false} NumeralReads(s: Text, sign: Text, digits: Text)
    requires Numeral(s, sign, digits)
    ensures var n: int := if sign == "-" then -(Value(digits) as int) else Value(digits);
      ParseI64(s) == if IsI64(n) then Some(n) else None
  {
    var from := |sign|;
    assert forall k | from <= k < |s| :: s[k] == digits[k - from];
    assert Digit(digits[0]);
    DigitsStop(s, from, |s|);
    assert s[from..from + |digits|] == digits[0..|digits|];
    SameDigits(s, digits, from, 0, |digits|);
  }

  /** And only a numeral reads. */
  lemma {:induction false} OnlyNumeralsRead(s: Text) returns (sign: Text, digits: Text)
    requires ParseI64(s).Some?
    ensures Numeral(s, sign, digits)
  {
    var from := if s != [] && (s[0] == '+' || s[0] == '-') then 1 else 0;
    DigitsCover(s, from);
    sign, digits := s[..from], s[from..];
    assert sign == "" || sign == [s[0]];
  }

  // ------------------------------------------------------------- leading zeros

  /** Digits that could be fewer. */
  predicate Padded(digits: Text) { |digits| > 1 && digits[0] == '0' }

  /** Written with a leading zero, after a `-` or not. */
  predicate LeadingZero(s: Text) { Padded(if s != [] && s[0] == '-' then s[1..] else s) }

  lemma {:induction false} PlainIsNotPadded(n: nat)
    ensures !Padded(ToDigits(n)) && (n > 0 ==> ToDigits(n)[0] != '0')
  {
    if n >= 10 {
      PlainIsNotPadded(n / 10);
    }
  }

  /** A term is padded to the width asked, and no further. */
  lemma {:induction false} FormatPads(n: int, width: nat)
    ensures var word := Format(n, width);
      && |word| >= width && (|word| > width ==> !LeadingZero(word))
      && word[0] != '+' && (word[0] == '-' <==> n < 0)
  {
    PlainIsNotPadded(Abs(n));
    PaddedAreDigits(n, width);
    assert Digit(PaddedDigits(n, width)[0]);
    if |Format(n, width)| > width {
      assert PaddedDigits(n, width) == Zeros(0) + ToDigits(Abs(n)) == ToDigits(Abs(n));
      assert n < 0 ==> Format(n, width)[1..] == ToDigits(Abs(n));
      assert n >= 0 ==> Format(n, width) == ToDigits(Abs(n));
    }
  }

  lemma {:induction false} LastDigit(digits: Text)
    requires digits != [] && AllDigits(digits)
    ensures AllDigits(digits[..|digits| - 1])
    ensures Value(digits[..|digits| - 1]) == Value(digits) / 10
    ensures |digits| > 1 && !Padded(digits) ==> Value(digits) >= 10
    ensures |digits| == 1 ==> Value(digits) < 10
  {
    var init, c := digits[..|digits| - 1], digits[|digits| - 1];
    assert digits == init + [c];
    WorthOfDigits(init, c);
    assert |digits| == 1 ==> init == [];
    if |digits| > 1 && digits[0] != '0' {
      FirstDigitCounts(init);
    }
  }

  lemma {:induction false} FirstDigitCounts(digits: Text)
    requires digits != [] && AllDigits(digits) && digits[0] != '0'
    ensures Value(digits) > 0
  {
    var init, c := digits[..|digits| - 1], digits[|digits| - 1];
    assert digits == init + [c];
    WorthOfDigits(init, c);
    if |digits| > 1 {
      FirstDigitCounts(init);
    }
  }

  /** No digits worth as much are fewer than ones without a leading zero. */
  lemma {:induction false} PlainIsShortest(a: Text, b: Text)
    requires a != [] && AllDigits(a) && !Padded(a) && b != [] && AllDigits(b) && Value(a) == Value(b)
    ensures |a| <= |b|
  {
    if |a| > 1 {
      LastDigit(a);
      LastDigit(b);
      if |b| > 1 {
        PlainIsShortest(a[..|a| - 1], b[..|b| - 1]);
      }
    }
  }

  /** A word without a leading zero or a `+` is no longer than any that reads as
      the same number. */
  lemma {:induction false} ShortestWord(word: Text, other: Text, n: int)
    requires ParseI64(word) == Some(n) == ParseI64(other)
    requires !LeadingZero(word) && word[0] != '+' && (word[0] == '-' ==> n < 0)
    ensures |word| <= |other|
  {
    var sign, digits := OnlyNumeralsRead(word);
    var sign', digits' := OnlyNumeralsRead(other);
    NumeralReads(word, sign, digits);
    NumeralReads(other, sign', digits');
    assert sign == "-" ==> word[1..] == digits;
    assert sign != [] ==> word[0] == sign[0];
    assert sign == [] ==> word[0] == digits[0] && Digit(digits[0]);
    PlainIsShortest(digits, digits');
  }

  // ------------------------------------------------------------------- ranges

  /** `text` spells an end of a range: a 64-bit integer or a letter. */
  predicate Spells(text: Text, end: Term) {
    match end case Int(n) => ParseI64(text) == Some(n) case Letter(c) => AsciiLetter(c) && text == [c]
  }

  /** `tail` spells the step: one when it is not written. */
  predicate SpellsStep(tail: Text, step: int) {
    if tail == [] then step == 1
    else |tail| > 2 && tail[0] == '.' && tail[1] == '.' && ParseI64(tail[2..]) == Some(step)
  }

  lemma {:induction false} SpelledHasNoDot(text: Text, end: Term)
    requires Spells(text, end)
    ensures text != [] && '.' !in text && Writable(end) && StartTerm(text) == Some(end)
  {
    if end.Int? {
      var sign, digits := OnlyNumeralsRead(text);
    }
  }

  lemma {:induction false} SpelledEnds(text: Text, end: Term, tail: Text)
    requires Spells(text, end) && (tail != [] ==> tail[0] == '.')
    ensures text + tail != [] && EndTerm(text + tail) == Some((end, |text|))
  {
    var s := text + tail;
    assert s[..|text|] == text;
    SpelledHasNoDot(text, end);
    if end.Int? {
      var sign, digits := OnlyNumeralsRead(text);
      var from := |sign|;
      assert forall k | from <= k < |text| :: s[k] == digits[k - from];
      assert s[0] == text[0] && Digit(digits[0]);
      DigitsStop(s, from, |text|);
    } else {
      assert s[..0] == [];
      assert tail != [] ==> s[1] == tail[0];
    }
  }

  /** Text is a range exactly as its two ends and its step are read. */
  lemma {:induction false} RangeReads(from: Text, lo: Term, to: Text, hi: Term, tail: Text, step: int)
    requires Spells(from, lo) && Spells(to, hi) && SpellsStep(tail, step)
    ensures Writable(lo) && Writable(hi)
    ensures Sequence(Range(from, to, tail)) == Between(lo, hi, step, PadWidth(from, to))
  {
    SpelledHasNoDot(from, lo);
    SpelledHasNoDot(to, hi);
    SpelledEnds(to, hi, tail);
    FindSkips(from, to + tail, 0);
    RangeParts(from, to, tail);
    SequenceOf(Range(from, to, tail), from, lo, to + tail, hi, |to|, step);
  }

  /** Text that is a range is two spelled ends, and a step or none. */
  lemma {:induction false} OnlyRangesCount(amble: Text)
      returns (from: Text, lo: Term, to: Text, hi: Term, tail: Text, step: int)
    requires Sequence(amble).Some?
    ensures amble == Range(from, to, tail) && Spells(from, lo) && Spells(to, hi) && SpellsStep(tail, step)
  {
    var at := Find(amble, 0).value;
    var rhs := amble[at + 2..];
    from := amble[..at];
    var end := EndTerm(rhs).value;
    lo, hi, step := StartTerm(from).value, end.0, StepOf(rhs[end.1..]).value;
    to, tail := rhs[..end.1], rhs[end.1..];
    EndIsSpelled(rhs);
    AmbleIsRange(amble, at, from, to, tail);
  }

  lemma {:induction false} EndIsSpelled(rhs: Text)
    requires rhs != [] && EndTerm(rhs).Some?
    ensures var end := EndTerm(rhs).value; Spells(rhs[..end.1], end.0)
  {
  }

  lemma {:induction false} AmbleIsRange(amble: Text, at: nat, from: Text, to: Text, tail: Text)
    requires at + 2 <= |amble| && amble[at] == amble[at + 1] == '.'
    requires from == amble[..at] && to + tail == amble[at + 2..]
    ensures amble == Range(from, to, tail)
  {
    assert amble[at..at + 2] == "..";
    assert amble == amble[..at] + (amble[at..at + 2] + amble[at + 2..]);
  }

  /** As many terms as bash allows between the ends. */
  predicate Allowed(lo: int, hi: int, step: int) { Abs(hi - lo) < (I32_MAX - 2) * Stride(step) }

  /** The terms are refused exactly when there are too many. */
  lemma {:induction false} TooManyAreRefused(lo: int, hi: int, step: int)
    ensures Stride(step) == if step == 0 then 1 else if step < 0 then -step else step
    ensures Steps(lo, hi, step).Some? <==> Allowed(lo, hi, step)
  {
    Quotient(Abs(hi - lo), Stride(step), I32_MAX - 3);
  }

  lemma {:induction false} Quotient(a: nat, b: nat, most: int)
    requires b > 0
    ensures a / b > most <==> a >= (most + 1) * b
  {
    var q, r := a / b, a % b;
    assert a == q * b + r && 0 <= r < b;
    if q > most {
      Scales(most + 1, q, b);
    } else {
      Scales(q + 1, most + 1, b);
      assert (q + 1) * b == q * b + b;
    }
  }

  lemma {:induction false} Scales(m: int, n: int, b: nat)
    requires m <= n
    ensures m * b <= n * b
  {
    assert 0 <= (n - m) * b == n * b - m * b;
  }

  /** A word as long as the ends of its range ask: at least as long as the longer
      when either has a leading zero, and padded no further. */
  predicate AsLong(word: Text, from: Text, to: Text) {
    if LeadingZero(from) || LeadingZero(to) then
      && |word| >= |from| && |word| >= |to|
      && (|word| > |from| && |word| > |to| ==> !LeadingZero(word))
    else !LeadingZero(word)
  }

  /** A word that reads as `n`, signed only when that is negative. */
  predicate WordOf(word: Text, n: int) {
    ParseI64(word) == Some(n) && word[0] != '+' && (word[0] == '-' <==> n < 0)
  }

  lemma {:induction false} WordIs(n: int, from: Text, to: Text)
    requires IsI64(n) && from != [] && to != []
    ensures var word := Format(n, PadWidth(from, to)); WordOf(word, n) && AsLong(word, from, to)
  {
    FormatReadsBack(n, PadWidth(from, to));
    FormatPads(n, PadWidth(from, to));
  }

  /**
   The words of a range between two integers, however they are spelled: one for
   each term in order, which reads as its term, and is as long as the ends ask.
   It is a range exactly when its terms are not too many.
   */
  lemma {:induction false} IntegerWords(from: Text, lo: int, to: Text, hi: int, tail: Text, step: int)
    requires Spells(from, Int(lo)) && Spells(to, Int(hi)) && SpellsStep(tail, step)
    ensures var words, terms := Sequence(Range(from, to, tail)), Steps(lo, hi, step);
      && (words.Some? <==> Allowed(lo, hi, step)) && (terms.Some? <==> Allowed(lo, hi, step))
      && (words.Some? ==>
        |words.value| == |terms.value| && forall k | 0 <= k < |terms.value| ::
          WordOf(words.value[k], terms.value[k]) && AsLong(words.value[k], from, to))
  {
    RangeReads(from, Int(lo), to, Int(hi), tail, step);
    TooManyAreRefused(lo, hi, step);
    SpelledHasNoDot(from, Int(lo));
    SpelledHasNoDot(to, Int(hi));
    var words, terms := Sequence(Range(from, to, tail)), Steps(lo, hi, step);
    if words.Some? {
      forall k | 0 <= k < |terms.value|
        ensures WordOf(words.value[k], terms.value[k]) && AsLong(words.value[k], from, to)
      {
        StepsFit(lo, hi, step, k);
        WordIs(terms.value[k], from, to);
      }
    }
  }

  /** When an end has a leading zero, a word is exactly as long as the longer end
      whenever its number can be spelled that short. */
  lemma {:induction false} ExactlyAsLong(word: Text, n: int, from: Text, to: Text, other: Text)
    requires WordOf(word, n) && AsLong(word, from, to) && (LeadingZero(from) || LeadingZero(to))
    requires ParseI64(other) == Some(n) && (|other| <= |from| || |other| <= |to|)
    ensures |word| == Most(|from|, |to|)
  {
    if |word| > Most(|from|, |to|) {
      ShortestWord(word, other, n);
      assert false;
    }
  }

  /**
   The words of a range between two letters: one for each term in order, the
   letter or other character of that code.
   */
  lemma {:induction false} LetterWords(lo: char, hi: char, tail: Text, step: int)
    requires AsciiLetter(lo) && AsciiLetter(hi) && SpellsStep(tail, step)
    ensures var words, terms := Sequence(Range([lo], [hi], tail)), Steps(lo as int, hi as int, step);
      && words.Some? && terms.Some? && |words.value| == |terms.value|
      && forall k | 0 <= k < |terms.value| :: |words.value[k]| == 1 && words.value[k][0] as int == terms.value[k]
  {
    RangeReads([lo], Letter(lo), [hi], Letter(hi), tail, step);
    TooManyAreRefused(lo as int, hi as int, step);
    LettersAreFew(Abs(hi as int - lo as int), Stride(step));
    var terms := Steps(lo as int, hi as int, step).value;
    forall k | 0 <= k < |terms| ensures 0 <= terms[k] < 256 {
      StepsFit(lo as int, hi as int, step, k);
    }
  }

  lemma {:induction false} LettersAreFew(distance: nat, stride: nat)
    requires distance < 256 && stride > 0
    ensures distance < (I32_MAX - 2) * stride
  {
    assert (I32_MAX - 2) * 1 <= (I32_MAX - 2) * stride;
  }

  /** A number and a letter make no range. */
  lemma {:induction false} MixedIsNoRange(from: Text, lo: Term, to: Text, hi: Term, tail: Text, step: int)
    requires Spells(from, lo) && Spells(to, hi) && SpellsStep(tail, step) && lo.Int? != hi.Int?
    ensures Sequence(Range(from, to, tail)) == None
  {
    RangeReads(from, lo, to, hi, tail, step);
  }
}
