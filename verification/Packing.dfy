/**
 Splitting a table's paths over invocations (on_file.rs): by what an argument
 list can carry (`Packer`), or, when one list carries all, by how much data the
 files hold (`Spread`).
 */
module Packing {
  import opened Wrappers

  /** The elements of every run, in order. */
  function Concat<T>(runs: seq<seq<T>>): seq<T> {
    if runs == [] then [] else Concat(runs[..|runs| - 1]) + runs[|runs| - 1]
  }

  lemma {:induction false} ConcatAppend<T>(runs: seq<seq<T>>, run: seq<T>)
    ensures Concat(runs + [run]) == Concat(runs) + run
  {
    assert (runs + [run])[..|runs|] == runs;
  }

  // ---------------------------------------------------------------- packing

  /** The bytes `args` cost on a command line. */
  function Cost<T>(args: seq<T>, cost: T -> nat): nat {
    if args == [] then 0 else Cost(args[..|args| - 1], cost) + cost(args[|args| - 1])
  }

  /** A run within the budget, or of a single argument. */
  ghost predicate Fits<T>(run: seq<T>, cost: T -> nat, budget: nat) {
    run != [] && (|run| == 1 || Cost(run, cost) <= budget)
  }

  /** `runs` split `args` in order, by the rule above. */
  ghost predicate Splits<T>(runs: seq<seq<T>>, args: seq<T>, cost: T -> nat, budget: nat) {
    Concat(runs) == args && forall k | 0 <= k < |runs| :: Fits(runs[k], cost, budget)
  }

  /** `run` could not take the argument after it. */
  ghost predicate Overflows<T>(run: seq<T>, next: seq<T>, cost: T -> nat, budget: nat) {
    next != [] && Cost(run, cost) + cost(next[0]) > budget
  }

  /** No run could take the argument after it. */
  ghost predicate Full<T>(runs: seq<seq<T>>, cost: T -> nat, budget: nat) {
    forall i, j | 0 <= i && j == i + 1 && j < |runs| :: Overflows(runs[i], runs[j], cost, budget)
  }

  /** Fills argument lists in order up to a budget. */
  class Packer<T> {
    const budget: nat
    const cost: T -> nat
    var used: nat
    var args: seq<T>

    constructor (budget: nat, cost: T -> nat)
      ensures this.budget == budget && this.cost == cost && args == [] && Valid()
    {
      this.budget, this.cost := budget, cost;
      used, args := 0, [];
    }

    ghost predicate Valid()
      reads this
    {
      used == Cost(args, cost) && (args == [] || Fits(args, cost, budget))
    }

    /** Add `arg`, giving the list it overflowed. */
    method Push(arg: T) returns (full: Option<seq<T>>)
      requires Valid()
      modifies this
      ensures Valid()
      ensures full.Some? <==> old(args) != [] && Cost(old(args), cost) + cost(arg) > budget
      ensures full.Some? ==> full.value == old(args) && args == [arg]
      ensures full.None? ==> args == old(args) + [arg]
    {
      var c := cost(arg);
      full := None;
      if args != [] && used + c > budget {
        used, full, args := 0, Some(args), [];
      }
      assert (args + [arg])[..|args|] == args;
      used := used + c;
      args := args + [arg];
    }

    method Rest() returns (rest: seq<T>)
      requires Valid()
      ensures rest == args
    {
      return args;
    }
  }

  /** The lists handed out and the one being filled. */
  function Sofar<T>(runs: seq<seq<T>>, held: seq<T>): seq<seq<T>> { if held == [] then runs else runs + [held] }

  /** The first `n` of `args` are packed: the lists handed out, and `held`. */
  ghost predicate Packed<T>(runs: seq<seq<T>>, held: seq<T>, args: seq<T>, n: nat, cost: T -> nat, budget: nat)
    requires n <= |args|
  {
    && (held == [] ==> runs == [])
    && Splits(Sofar(runs, held), args[..n], cost, budget) && Full(Sofar(runs, held), cost, budget)
  }

  /** Pack one argument more. */
  method PackOne<T>(packer: Packer<T>, runs: seq<seq<T>>, args: seq<T>, i: nat) returns (more: seq<seq<T>>)
    requires packer.Valid() && i < |args| && Packed(runs, packer.args, args, i, packer.cost, packer.budget)
    modifies packer
    ensures packer.Valid() && Packed(more, packer.args, args, i + 1, packer.cost, packer.budget)
  {
    ghost var held := packer.args;
    assert args[..i + 1] == args[..i] + [args[i]];
    var full := packer.Push(args[i]);
    more := runs;
    if full.Some? {
      Overflowed(runs, held, args[i], args[..i], packer.cost, packer.budget);
      more := runs + [full.value];
    } else {
      Widened(runs, held, args[i], args[..i], packer.cost, packer.budget);
    }
  }

  /** Pack `args`: the lists that overflowed, then what is left. */
  method Pack<T>(args: seq<T>, cost: T -> nat, budget: nat) returns (runs: seq<seq<T>>)
    ensures Splits(runs, args, cost, budget) && Full(runs, cost, budget)
  {
    var packer := new Packer(budget, cost);
    runs := [];
    for i := 0 to |args|
      invariant packer.Valid() && packer.budget == budget && packer.cost == cost && fresh(packer)
      invariant Packed(runs, packer.args, args, i, cost, budget)
    {
      runs := PackOne(packer, runs, args, i);
    }
    assert args[..|args|] == args;
    var rest := packer.Rest();
    if rest != [] {
      runs := runs + [rest];
    }
  }

  lemma {:induction false} Widened<T>(runs: seq<seq<T>>, held: seq<T>, arg: T, done: seq<T>, cost: T -> nat,
      budget: nat)
    requires Splits(Sofar(runs, held), done, cost, budget) && Full(Sofar(runs, held), cost, budget)
    requires if held == [] then runs == [] else Cost(held, cost) + cost(arg) <= budget
    ensures Splits(runs + [held + [arg]], done + [arg], cost, budget) && Full(runs + [held + [arg]], cost, budget)
  {
    var sofar, more := Sofar(runs, held), runs + [held + [arg]];
    assert (held + [arg])[..|held|] == held;
    ConcatAppend(runs, held + [arg]);
    if held != [] {
      ConcatAppend(runs, held);
      assert Concat(runs) + (held + [arg]) == Concat(runs) + held + [arg];
      forall i, j | 0 <= i && j == i + 1 && j < |more| ensures Overflows(more[i], more[j], cost, budget) {
        assert Overflows(sofar[i], sofar[j], cost, budget);
      }
      forall k | 0 <= k < |runs| ensures Fits(runs[k], cost, budget) {
        assert Fits(sofar[k], cost, budget);
      }
    }
  }

  lemma {:induction false} Overflowed<T>(runs: seq<seq<T>>, held: seq<T>, arg: T, done: seq<T>, cost: T -> nat,
      budget: nat)
    requires Splits(runs + [held], done, cost, budget) && Full(runs + [held], cost, budget)
    requires Cost(held, cost) + cost(arg) > budget
    ensures Splits(runs + [held] + [[arg]], done + [arg], cost, budget) && Full(runs + [held] + [[arg]], cost, budget)
  {
    var sofar, more := runs + [held], runs + [held] + [[arg]];
    ConcatAppend(sofar, [arg]);
    forall i, j | 0 <= i && j == i + 1 && j < |more| ensures Overflows(more[i], more[j], cost, budget) {
      if j < |sofar| {
        assert Overflows(sofar[i], sofar[j], cost, budget);
      }
    }
    forall k | 0 <= k < |more| ensures Fits(more[k], cost, budget) {
      assert k < |sofar| ==> Fits(sofar[k], cost, budget);
    }
  }

  // -------------------------------------------------------------- optimality

  /** Where run `k` starts. */
  function Start<T>(runs: seq<seq<T>>, k: nat): nat
    requires k <= |runs|
  {
    |Concat(runs[..k])|
  }

  lemma {:induction false} RunIsSlice<T>(runs: seq<seq<T>>, args: seq<T>, k: nat)
    requires Concat(runs) == args && k < |runs|
    ensures Start(runs, k) + |runs[k]| == Start(runs, k + 1) <= |args|
    ensures runs[k] == args[Start(runs, k)..Start(runs, k + 1)]
    decreases |runs|
  {
    var init, last := runs[..|runs| - 1], runs[|runs| - 1];
    if k == |runs| - 1 {
      assert runs[..k] == init && runs[..k + 1] == runs;
    } else {
      assert runs[..k] == init[..k] && runs[..k + 1] == init[..k + 1];
      RunIsSlice(init, Concat(init), k);
    }
  }

  lemma {:induction false} CostConcat<T>(a: seq<T>, b: seq<T>, cost: T -> nat)
    ensures Cost(a + b, cost) == Cost(a, cost) + Cost(b, cost)
    decreases |b|
  {
    if b == [] {
      assert a + b == a;
    } else {
      assert (a + b)[..|a + b| - 1] == a + b[..|b| - 1];
      CostConcat(a, b[..|b| - 1], cost);
    }
  }

  /** A run costs at least what any stretch of it does. */
  lemma {:induction false} CostWithin<T>(args: seq<T>, from: nat, lo: nat, hi: nat, to: nat, cost: T -> nat)
    requires from <= lo <= hi <= to <= |args|
    ensures Cost(args[lo..hi], cost) <= Cost(args[from..to], cost)
  {
    assert args[from..to] == args[from..lo] + (args[lo..hi] + args[hi..to]);
    CostConcat(args[from..lo], args[lo..hi] + args[hi..to], cost);
    CostConcat(args[lo..hi], args[hi..to], cost);
  }

  /** A run that fits and starts no later ends no later than one that is full. */
  lemma {:induction false} NeverPast<T>(args: seq<T>, run: seq<T>, next: seq<T>, g: nat, other: seq<T>, o: nat,
      cost: T -> nat, budget: nat)
    requires o <= g && g + |run| < |args| && o + |other| <= |args|
    requires run == args[g..g + |run|] && run != [] && other == args[o..o + |other|]
    requires Overflows(run, next, cost, budget) && next[0] == args[g + |run|]
    requires Fits(other, cost, budget)
    ensures o + |other| <= g + |run|
  {
    if g + |run| < o + |other| {
      var wider := args[g..g + |run| + 1];
      assert wider[..|run|] == run;
      CostWithin(args, o, g, g + |run| + 1, o + |other|, cost);
    }
  }

  lemma {:induction false} RunAt<T>(runs: seq<seq<T>>, args: seq<T>, cost: T -> nat, budget: nat, k: nat)
    requires Splits(runs, args, cost, budget) && k < |runs|
    ensures runs[k] != [] && Fits(runs[k], cost, budget)
    ensures Start(runs, k) + |runs[k]| == Start(runs, k + 1) <= |args|
    ensures runs[k] == args[Start(runs, k)..Start(runs, k) + |runs[k]|] && runs[k][0] == args[Start(runs, k)]
  {
    RunIsSlice(runs, args, k);
  }

  lemma {:induction false} OverflowsAt<T>(runs: seq<seq<T>>, cost: T -> nat, budget: nat, k: nat)
    requires Full(runs, cost, budget) && 0 < k < |runs|
    ensures Overflows(runs[k - 1], runs[k], cost, budget)
  {
  }

  /** Full runs get at least as far as any others, run for run. */
  lemma {:induction false} StaysAhead<T>(runs: seq<seq<T>>, other: seq<seq<T>>, args: seq<T>, cost: T -> nat,
      budget: nat, k: nat)
    requires Splits(runs, args, cost, budget) && Full(runs, cost, budget) && Splits(other, args, cost, budget)
    requires k < |runs| && k <= |other|
    ensures Start(other, k) <= Start(runs, k)
  {
    if k > 0 {
      StaysAhead(runs, other, args, cost, budget, k - 1);
      RunAt(runs, args, cost, budget, k - 1);
      RunAt(runs, args, cost, budget, k);
      RunAt(other, args, cost, budget, k - 1);
      OverflowsAt(runs, cost, budget, k);
      NeverPast(args, runs[k - 1], runs[k], Start(runs, k - 1), other[k - 1], Start(other, k - 1), cost, budget);
    }
  }

  /** Packing uses the fewest runs any in-order split by the same rule can. */
  lemma {:induction false} PackingIsOptimal<T>(runs: seq<seq<T>>, other: seq<seq<T>>, args: seq<T>, cost: T -> nat,
      budget: nat)
    requires Splits(runs, args, cost, budget) && Full(runs, cost, budget) && Splits(other, args, cost, budget)
    ensures |runs| <= |other|
  {
    var k := |other|;
    assert other[..k] == other;
    if k < |runs| {
      assert Fits(runs[k], cost, budget);
      RunIsSlice(runs, args, k);
      StaysAhead(runs, other, args, cost, budget, k);
    }
  }

  /** And the full split is the only one of its kind. */
  lemma {:induction false} PackingIsUnique<T>(runs: seq<seq<T>>, other: seq<seq<T>>, args: seq<T>, cost: T -> nat,
      budget: nat)
    requires Splits(runs, args, cost, budget) && Full(runs, cost, budget)
    requires Splits(other, args, cost, budget) && Full(other, cost, budget)
    ensures runs == other
  {
    PackingIsOptimal(runs, other, args, cost, budget);
    PackingIsOptimal(other, runs, args, cost, budget);
    forall k | 0 <= k < |runs| ensures runs[k] == other[k] {
      RunIsSlice(runs, args, k);
      RunIsSlice(other, args, k);
      StaysAhead(runs, other, args, cost, budget, k);
      StaysAhead(other, runs, args, cost, budget, k);
      if k + 1 < |runs| {
        StaysAhead(runs, other, args, cost, budget, k + 1);
        StaysAhead(other, runs, args, cost, budget, k + 1);
      } else {
        assert runs[..k + 1] == runs && other[..k + 1] == other;
      }
    }
  }

  // --------------------------------------------------------------- spreading

  const MIN_RUN_BYTES: nat := 4 * 1024 * 1024

  function Sum(sizes: seq<nat>): nat {
    if sizes == [] then 0 else Sum(sizes[..|sizes| - 1]) + sizes[|sizes| - 1]
  }

  lemma {:induction false} SumSplit(sizes: seq<nat>, k: nat)
    requires k <= |sizes|
    ensures Sum(sizes) == Sum(sizes[..k]) + Sum(sizes[k..])
  {
    if k == |sizes| {
      assert sizes[..k] == sizes;
    } else {
      var init := sizes[..|sizes| - 1];
      SumSplit(init, k);
      assert init[..k] == sizes[..k] && init[k..] == sizes[k..][..|sizes[k..]| - 1];
    }
  }

  function Least(a: nat, b: nat): nat { if a < b then a else b }

  /** How many runs are wanted: no more than asked for, than there are files,
      or than the data justifies. */
  function Parts(count: nat, sizes: seq<nat>, parts: nat): (n: nat)
    ensures n <= parts && n <= count && n * MIN_RUN_BYTES <= Sum(sizes)
    ensures n == parts || n == count || (n + 1) * MIN_RUN_BYTES > Sum(sizes)
  {
    Least(Least(parts, count), Sum(sizes) / MIN_RUN_BYTES)
  }

  /** The positions from `lo` to `hi` hold no more than an even share of
      `total` and one file. */
  ghost predicate Share(sizes: seq<nat>, lo: nat, hi: nat, total: nat, parts: nat)
    requires lo <= hi <= |sizes|
  {
    exists f | lo <= f < hi :: Sum(sizes[lo..hi]) * parts <= total + sizes[f] * parts
  }

  ghost function Shares(sizes: seq<nat>, parts: nat): (nat, nat) -> bool {
    (lo: nat, hi: nat) => lo <= hi <= |sizes| && Share(sizes, lo, hi, Sum(sizes), parts)
  }

  /** The positions runs start and end at: consecutive, each run as `ok` wants. */
  ghost predicate Cuts(cuts: seq<nat>, upto: nat, ok: (nat, nat) -> bool) {
    && cuts != [] && cuts[0] == 0 && Last(cuts) <= upto
    && forall i, j | 0 <= i && j == i + 1 && j < |cuts| :: cuts[i] < cuts[j] && ok(cuts[i], cuts[j])
  }

  function Last(cuts: seq<nat>): nat
    requires cuts != []
  {
    cuts[|cuts| - 1]
  }

  /** Each cut is past the one before. */
  ghost predicate Rising(cuts: seq<nat>) { forall i, j | 0 <= i && j == i + 1 && j < |cuts| :: cuts[i] <= cuts[j] }

  lemma {:induction false} AllUnderLast(cuts: seq<nat>, k: nat)
    requires Rising(cuts) && k < |cuts|
    ensures cuts[k] <= Last(cuts)
    decreases |cuts| - k
  {
    if k + 1 < |cuts| {
      AllUnderLast(cuts, k + 1);
    }
  }

  /** The runs `cuts` make of `args`. */
  function RunsAt<T>(args: seq<T>, cuts: seq<nat>): (runs: seq<seq<T>>)
    requires cuts != [] && Rising(cuts) && Last(cuts) <= |args|
    ensures |runs| == |cuts| - 1
  {
    seq(|cuts| - 1, k requires 0 <= k < |cuts| - 1 =>
      AllUnderLast(cuts, k + 1); assert cuts[k] <= cuts[k + 1]; args[cuts[k]..cuts[k + 1]])
  }

  lemma {:induction false} RunsGrow<T>(args: seq<T>, cuts: seq<nat>, end: nat)
    requires cuts != [] && Rising(cuts) && Last(cuts) <= end <= |args|
    ensures Rising(cuts + [end])
    ensures RunsAt(args, cuts + [end]) == RunsAt(args, cuts) + [args[Last(cuts)..end]]
  {
    var more := cuts + [end];
    forall i, j | 0 <= i && j == i + 1 && j < |more| ensures more[i] <= more[j] {
      if j < |cuts| {
        assert cuts[i] <= cuts[j];
      }
    }
  }

  lemma {:induction false} RunsConcat<T>(args: seq<T>, cuts: seq<nat>)
    requires cuts != [] && cuts[0] == 0 && Rising(cuts) && Last(cuts) <= |args|
    ensures Concat(RunsAt(args, cuts)) == args[..Last(cuts)]
    decreases |cuts|
  {
    if |cuts| > 1 {
      var init, end := cuts[..|cuts| - 1], Last(cuts);
      assert cuts == init + [end] && cuts[|cuts| - 2] <= cuts[|cuts| - 1];
      RunsConcat(args, init);
      RunsGrow(args, init, end);
      ConcatAppend(RunsAt(args, init), args[Last(init)..end]);
    }
  }

  /** The first `i` files carry at least `k` shares. */
  ghost predicate Reached(sizes: seq<nat>, i: nat, parts: nat, k: nat)
    requires i <= |sizes|
  {
    Sum(sizes[..i]) * parts >= Sum(sizes) * k
  }

  lemma {:induction false} SumOf(sizes: seq<nat>, lo: nat, hi: nat)
    requires lo <= hi <= |sizes|
    ensures Sum(sizes[lo..hi]) == Sum(sizes[..hi]) - Sum(sizes[..lo])
    ensures hi < |sizes| ==> Sum(sizes[..hi + 1]) == Sum(sizes[..hi]) + sizes[hi]
  {
    SumSplit(sizes[..hi], lo);
    assert sizes[..hi][..lo] == sizes[..lo] && sizes[..hi][lo..] == sizes[lo..hi];
    if hi < |sizes| {
      assert sizes[..hi + 1][..hi] == sizes[..hi];
    }
  }

  lemma {:induction false} ShareArithmetic(a: nat, b: nat, size: nat, total: nat, parts: nat, k: nat)
    requires a <= b && a * parts >= total * k
    requires a == b || b * parts <= total * (k + 1)
    ensures (b + size - a) * parts <= total + size * parts
  {
    assert (b + size - a) * parts == b * parts + size * parts - a * parts;
    assert total * (k + 1) == total * k + total;
  }

  /** A run cut as soon as the next share is reached stays within its own. */
  lemma {:induction false} CutWithinShare(sizes: seq<nat>, lo: nat, i: nat, parts: nat, k: nat)
    requires lo <= i < |sizes| && Reached(sizes, lo, parts, k)
    requires lo == i || !Reached(sizes, i, parts, k + 1)
    ensures Share(sizes, lo, i + 1, Sum(sizes), parts)
  {
    SumOf(sizes, lo, i + 1);
    SumOf(sizes, lo, i);
    ShareArithmetic(Sum(sizes[..lo]), Sum(sizes[..i]), sizes[i], Sum(sizes), parts, k);
    assert Sum(sizes[lo..i + 1]) == Sum(sizes[..i]) + sizes[i] - Sum(sizes[..lo]);
  }

  lemma {:induction false} RestArithmetic(a: nat, total: nat, size: nat, parts: nat)
    requires a <= total && parts > 0 && a * parts >= total * (parts - 1)
    ensures (total - a) * parts <= total + size * parts
  {
    assert (total - a) * parts == total * parts - a * parts;
    assert total * (parts - 1) == total * parts - total;
  }

  /** What is left after every other run is cut is within its share too. */
  lemma {:induction false} RestWithinShare(sizes: seq<nat>, lo: nat, parts: nat)
    requires lo < |sizes| && parts > 0 && Reached(sizes, lo, parts, parts - 1)
    ensures Share(sizes, lo, |sizes|, Sum(sizes), parts)
  {
    var last := |sizes| - 1;
    SumOf(sizes, lo, |sizes|);
    assert sizes[..|sizes|] == sizes;
    RestArithmetic(Sum(sizes[..lo]), Sum(sizes), sizes[last], parts);
    assert lo <= last && Sum(sizes[lo..|sizes|]) * parts <= Sum(sizes) + sizes[last] * parts;
  }

  /** `out` are consecutive runs of `args`, cut at `cuts`, each within its
      share. */
  ghost predicate Balanced<T>(args: seq<T>, sizes: seq<nat>, parts: nat, out: seq<seq<T>>, cuts: seq<nat>) {
    Cuts(cuts, |args|, Shares(sizes, parts)) && Last(cuts) == |args| && out == RunsAt(args, cuts)
  }

  lemma {:induction false} CutsGrow(cuts: seq<nat>, end: nat, upto: nat, ok: (nat, nat) -> bool)
    requires Cuts(cuts, upto, ok) && Last(cuts) < end <= upto && ok(Last(cuts), end)
    ensures Cuts(cuts + [end], upto, ok)
  {
    var more := cuts + [end];
    forall i, j | 0 <= i && j == i + 1 && j < |more| ensures more[i] < more[j] && ok(more[i], more[j]) {
      if j < |cuts| {
        assert cuts[i] < cuts[j];
      }
    }
  }

  ghost function Reaches(sizes: seq<nat>, parts: nat): (nat, nat) -> bool {
    (i: nat, k: nat) => i <= |sizes| && Reached(sizes, i, parts, k)
  }

  /** The cuts among the first `i` of `len` files, and what keeps the next in
      hand: `reached(i, k)` says the first `i` files carry `k` shares. */
  ghost predicate Spreading(len: nat, parts: nat, cuts: seq<nat>, i: nat, reached: (nat, nat) -> bool,
      ok: (nat, nat) -> bool) {
    && i <= len && Cuts(cuts, len, ok) && |cuts| <= parts
    && var start := Last(cuts);
      && start <= i && start < len && reached(start, |cuts| - 1)
      && (|cuts| < parts && start < Least(i, len - 1) ==> !reached(Least(i, len - 1), |cuts|))
  }

  lemma {:induction false} ReachedIs(sizes: seq<nat>, i: nat, parts: nat, k: nat, seen: nat)
    requires i <= |sizes| && seen == Sum(sizes[..i])
    ensures Reaches(sizes, parts)(i, k) <==> seen * parts >= Sum(sizes) * k
  {
  }

  lemma {:induction false} CutIsOk(sizes: seq<nat>, lo: nat, i: nat, parts: nat, k: nat)
    requires lo <= i < |sizes| && Reaches(sizes, parts)(lo, k)
    requires lo == i || !Reaches(sizes, parts)(i, k + 1)
    ensures Shares(sizes, parts)(lo, i + 1)
  {
    CutWithinShare(sizes, lo, i, parts, k);
  }

  lemma {:induction false} RestIsOk(sizes: seq<nat>, lo: nat, parts: nat)
    requires lo < |sizes| && parts > 0 && Reaches(sizes, parts)(lo, parts - 1)
    ensures Shares(sizes, parts)(lo, |sizes|)
  {
    RestWithinShare(sizes, lo, parts);
  }

  /** A run is cut after file `i`. */
  lemma {:induction false} SpreadCut(len: nat, parts: nat, cuts: seq<nat>, i: nat, reached: (nat, nat) -> bool,
      ok: (nat, nat) -> bool)
    requires Spreading(len, parts, cuts, i, reached, ok)
    requires i + 1 < len && |cuts| < parts && reached(i + 1, |cuts|) && ok(Last(cuts), i + 1)
    ensures Spreading(len, parts, cuts + [i + 1], i + 1, reached, ok)
  {
    CutsGrow(cuts, i + 1, len, ok);
  }

  /** Nothing is cut after file `i`. */
  lemma {:induction false} SpreadKeeps(len: nat, parts: nat, cuts: seq<nat>, i: nat, reached: (nat, nat) -> bool,
      ok: (nat, nat) -> bool)
    requires Spreading(len, parts, cuts, i, reached, ok) && i < len
    requires i + 1 < len && |cuts| < parts ==> !reached(i + 1, |cuts|)
    ensures Spreading(len, parts, cuts, i + 1, reached, ok)
  {
  }

  lemma {:induction false} CutHere(sizes: seq<nat>, n: nat, cuts: seq<nat>, i: nat)
    requires i + 1 < |sizes| && |cuts| < n && Reaches(sizes, n)(i + 1, |cuts|)
    requires Spreading(|sizes|, n, cuts, i, Reaches(sizes, n), Shares(sizes, n))
    ensures Spreading(|sizes|, n, cuts + [i + 1], i + 1, Reaches(sizes, n), Shares(sizes, n))
  {
    CutIsOk(sizes, Last(cuts), i, n, |cuts| - 1);
    SpreadCut(|sizes|, n, cuts, i, Reaches(sizes, n), Shares(sizes, n));
  }

  /** The last run takes what is left. */
  lemma {:induction false} LastCut(sizes: seq<nat>, n: nat, cuts: seq<nat>)
    requires 1 < n && Spreading(|sizes|, n, cuts, |sizes|, Reaches(sizes, n), Shares(sizes, n))
    ensures Cuts(cuts + [|sizes|], |sizes|, Shares(sizes, n))
  {
    if |cuts| < n {
      CutIsOk(sizes, Last(cuts), |sizes| - 1, n, |cuts| - 1);
    } else {
      RestIsOk(sizes, Last(cuts), n);
    }
    CutsGrow(cuts, |sizes|, |sizes|, Shares(sizes, n));
  }

  lemma {:induction false} RunsWhole<T>(args: seq<T>, cuts: seq<nat>, ok: (nat, nat) -> bool)
    requires Cuts(cuts, |args|, ok) && Last(cuts) == |args|
    ensures Concat(RunsAt(args, cuts)) == args && forall k | 0 <= k < |cuts| - 1 :: RunsAt(args, cuts)[k] != []
  {
    RunsConcat(args, cuts);
    assert args[..|args|] == args;
    forall k | 0 <= k < |cuts| - 1 ensures RunsAt(args, cuts)[k] != [] {
      AllUnderLast(cuts, k + 1);
      assert cuts[k] < cuts[k + 1];
      assert |RunsAt(args, cuts)[k]| == cuts[k + 1] - cuts[k];
    }
  }

  /**
   Split `args` into consecutive runs of about equal data: in order, none
   empty, no more than are wanted, none over an even share and one file.
   */
  method Spread<T>(args: seq<T>, sizes: seq<nat>, parts: nat) returns (out: seq<seq<T>>, ghost cuts: seq<nat>)
    requires |sizes| == |args|
    ensures Concat(out) == args && 1 <= |out|
    ensures Parts(|args|, sizes, parts) <= 1 ==> out == [args]
    ensures Parts(|args|, sizes, parts) > 1 ==> |out| <= Parts(|args|, sizes, parts)
    ensures args != [] ==> forall k | 0 <= k < |out| :: out[k] != []
    ensures Parts(|args|, sizes, parts) > 1 ==> Balanced(args, sizes, Parts(|args|, sizes, parts), out, cuts)
  {
    var total := Sum(sizes);
    var n := Least(Least(parts, |args|), total / MIN_RUN_BYTES);
    if n <= 1 {
      ConcatAppend([], args);
      assert [] + [args] == [args];
      return [args], [];
    }
    out, cuts := SpreadOver(args, sizes, n);
    RunsWhole(args, cuts, Shares(sizes, n));
  }

  method SpreadOver<T>(args: seq<T>, sizes: seq<nat>, n: nat) returns (out: seq<seq<T>>, ghost cuts: seq<nat>)
    requires |sizes| == |args| && 1 < n <= |args|
    ensures Balanced(args, sizes, n, out, cuts)
    ensures 1 < |cuts| <= n + 1
  {
    var total := Sum(sizes);
    ReachedIs(sizes, 0, n, 0, 0);
    out, cuts := [], [0];
    var start, seen := 0, 0;
    for i := 0 to |sizes|
      invariant Spreading(|args|, n, cuts, i, Reaches(sizes, n), Shares(sizes, n))
      invariant Rising(cuts) && out == RunsAt(args, cuts) && start == Last(cuts)
      invariant seen == Sum(sizes[..i])
    {
      SumOf(sizes, i, i);
      seen := seen + sizes[i];
      out, start, cuts := SpreadOne(args, sizes, n, total, i, seen, out, start, cuts);
    }
    LastCut(sizes, n, cuts);
    RunsGrow(args, cuts, |args|);
    assert args[start..] == args[start..|args|];
    out, cuts := out + [args[start..]], cuts + [|args|];
  }

  /** Whether to cut after file `i`, whose bytes `seen` counts too. */
  method SpreadOne<T>(args: seq<T>, sizes: seq<nat>, n: nat, total: nat, i: nat, seen: nat,
                      out0: seq<seq<T>>, start0: nat, ghost cuts0: seq<nat>)
    returns (out: seq<seq<T>>, start: nat, ghost cuts: seq<nat>)
    requires |sizes| == |args| && i < |args| && total == Sum(sizes) && seen == Sum(sizes[..i + 1])
    requires Spreading(|args|, n, cuts0, i, Reaches(sizes, n), Shares(sizes, n))
    requires Rising(cuts0) && out0 == RunsAt(args, cuts0) && start0 == Last(cuts0)
    ensures Spreading(|args|, n, cuts, i + 1, Reaches(sizes, n), Shares(sizes, n))
    ensures Rising(cuts) && out == RunsAt(args, cuts) && start == Last(cuts)
  {
    out, start, cuts := out0, start0, cuts0;
    var last := i + 1 == |args|;
    ReachedIs(sizes, i + 1, n, |cuts|, seen);
    if !last && |out| + 1 < n && seen * n >= total * (|out| + 1) {
      CutHere(sizes, n, cuts, i);
      RunsGrow(args, cuts, i + 1);
      out, cuts := out + [args[start..i + 1]], cuts + [i + 1];
      start := i + 1;
    } else {
      SpreadKeeps(|args|, n, cuts, i, Reaches(sizes, n), Shares(sizes, n));
    }
  }

  /** Spreading without knowing the CPUs when that cannot matter: the outcome is
      the one knowing them would give. */
  method SpreadRuns<T>(args: seq<T>, sizes: seq<nat>, cpus: nat) returns (out: seq<seq<T>>, ghost cuts: seq<nat>)
    requires |sizes| == |args|
    ensures Concat(out) == args && 1 <= |out|
    ensures Parts(|args|, sizes, cpus) <= 1 ==> out == [args]
    ensures Parts(|args|, sizes, cpus) > 1 ==> |out| <= Parts(|args|, sizes, cpus)
    ensures args != [] ==> forall k | 0 <= k < |out| :: out[k] != []
    ensures Parts(|args|, sizes, cpus) > 1 ==> Balanced(args, sizes, Parts(|args|, sizes, cpus), out, cuts)
  {
    var byData := Sum(sizes) / MIN_RUN_BYTES;
    if Least(byData, |args|) <= 1 {
      ConcatAppend([], args);
      assert [] + [args] == [args];
      return [args], [];
    }
    out, cuts := Spread(args, sizes, cpus);
  }

  // -------------------------------------------------------------- dispatching

  /** Runs of one list that fits the budget fit it too. */
  lemma {:induction false} StretchesFit<T>(args: seq<T>, runs: seq<seq<T>>, cost: T -> nat, budget: nat)
    requires Fits(args, cost, budget) && Concat(runs) == args
    requires forall k | 0 <= k < |runs| :: runs[k] != []
    ensures Splits(runs, args, cost, budget)
  {
    forall k | 0 <= k < |runs| ensures Fits(runs[k], cost, budget) {
      RunIsSlice(runs, args, k);
      CostWithin(args, 0, Start(runs, k), Start(runs, k + 1), |args|, cost);
      assert args[0..|args|] == args;
    }
  }

  /**
   The argument lists of a table's invocations: packed when one list cannot
   carry all the paths, in the fewest lists there can be, else spread evenly
   by the data behind them. Either way the paths are covered in order and every
   list fits.
   */
  method Invocations<T>(args: seq<T>, sizes: seq<nat>, cost: T -> nat, budget: nat, cpus: nat)
    returns (runs: seq<seq<T>>, ghost cuts: seq<nat>)
    requires |sizes| == |args|
    ensures Splits(runs, args, cost, budget)
    ensures !Fits(args, cost, budget) ==> Full(runs, cost, budget)
    ensures Fits(args, cost, budget) && Parts(|args|, sizes, cpus) <= 1 ==> runs == [args]
    ensures Fits(args, cost, budget) && Parts(|args|, sizes, cpus) > 1 ==>
      |runs| <= Parts(|args|, sizes, cpus) && Balanced(args, sizes, Parts(|args|, sizes, cpus), runs, cuts)
    ensures args == [] ==> runs == []
  {
    cuts := [];
    runs := Pack(args, cost, budget);
    if |runs| == 1 {
      LoneRun(runs, args);
      runs, cuts := SpreadRuns(args, sizes, cpus);
      StretchesFit(args, runs, cost, budget);
    } else {
      NoLoneRun(runs, args, cost, budget);
    }
  }

  lemma {:induction false} LoneRun<T>(runs: seq<seq<T>>, args: seq<T>)
    requires |runs| == 1 && Concat(runs) == args
    ensures runs[0] == args
  {
    ConcatAppend([], runs[0]);
    assert [] + [runs[0]] == runs;
    assert Concat<T>([]) + runs[0] == runs[0];
  }

  /** Arguments that fit one list are packed into one, and none into none. */
  lemma {:induction false} NoLoneRun<T>(runs: seq<seq<T>>, args: seq<T>, cost: T -> nat, budget: nat)
    requires Splits(runs, args, cost, budget) && Full(runs, cost, budget) && |runs| != 1
    ensures !Fits(args, cost, budget) && (args == [] ==> runs == [])
  {
    if args == [] {
      var none: seq<seq<T>> := [];
      PackingIsOptimal(runs, none, args, cost, budget);
    } else if Fits(args, cost, budget) {
      ConcatAppend([], args);
      assert [] + [args] == [args] && Concat<T>([]) + args == args;
      PackingIsOptimal(runs, [args], args, cost, budget);
    }
  }
}
