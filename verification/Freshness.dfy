/**
 When a query may skip reading a file (freshness.rs), and the protocol the rule
 runs in (lib.rs): one file of one table under interleaved clock ticks, writes,
 the build, and queries that stat, read, stat again, and commit or roll back.
 */
module Freshness {
  import opened Wrappers

  const MIN_I64: int := -0x8000_0000_0000_0000
  const MAX_I64: int := 0x7fff_ffff_ffff_ffff

  type i64 = x: int | MIN_I64 <= x <= MAX_I64

  const SETTLE_NS: i64 := 2_000_000_000

  function SaturatingSub(a: i64, b: i64): i64 {
    if a - b < MIN_I64 then MIN_I64 else if a - b > MAX_I64 then MAX_I64 else a - b
  }

  datatype Fingerprint = Fingerprint(dev: nat, ino: nat, size: nat, mtime: i64, ctime: Option<i64>)

  datatype Known = Built | Read(fp: Option<Fingerprint>, settled: bool)

  predicate ChangedBefore(fp: Fingerprint, start: i64) {
    fp.ctime.Some? && fp.ctime.value < SaturatingSub(start, SETTLE_NS)
  }

  predicate MustRead(known: Option<Known>, now: Option<Fingerprint>, built: i64) {
    if known.None? || now.None? then true
    else
      match known.value
      case Built => !ChangedBefore(now.value, built)
      case Read(fp, settled) => !settled || fp != now
  }

  function AfterRead(fp: Option<Fingerprint>, start: i64): Known {
    Read(fp, fp.Some? && ChangedBefore(fp.value, start))
  }

  function Adopted(known: Option<Known>, now: Option<Fingerprint>, built: i64): Option<Known> {
    if known == Some(Built) then Some(AfterRead(now, built)) else None
  }

  // ---------------------------------------------------------------- protocol

  /** What a file holds, as far as rows depend on it. */
  type Content = int

  datatype File = Missing | Present(content: Content, fp: Fingerprint)

  /**
   Where the build or the query in progress stands. `dirty` says the file
   changed since the phase began; `seen` is what it held when it was stat'd.
   */
  datatype Phase =
    | Unbuilt
    | Building(dirty: bool)
    | Idle
    | Begun(start: i64, dirty: bool)
    | Statted(start: i64, dirty: bool, now: Option<Fingerprint>, seen: Option<Content>)
    | Parsed(start: i64, dirty: bool, got: Option<Content>)
    | Staged(indexed: Option<Content>, known: Option<Known>)

  datatype State = State(
    clock: i64,
    file: File,
    built: i64,
    indexed: Option<Content>,
    known: Option<Known>,
    phase: Phase)

  datatype Step =
    | Tick(to: i64)
    | Write(content: Content, fp: Fingerprint)
    | Remove
    | BuildBegin
    | BuildRead(made: Content)
    | BuildWithout
    | QueryBegin
    | ScanMisses
    | Stat(works: bool)
    | Skip
    | ReadContent(rows: Option<Content>)
    | StatAgain(works: bool)
    | Commit
    | Rollback

  function Soil(p: Phase): Phase {
    match p
    case Building(_) => Building(true)
    case Begun(start, _) => Begun(start, true)
    case Statted(start, _, now, seen) => Statted(start, true, now, seen)
    case Parsed(start, _, got) => Parsed(start, true, got)
    case _ => p
  }

  function StatOf(f: File): Option<Fingerprint> {
    if f.Present? then Some(f.fp) else None
  }

  function ContentOf(f: File): Option<Content> {
    if f.Present? then Some(f.content) else None
  }

  /** A change stamps a change time at most `lag` behind the clock, or none on
      a platform that reports none. */
  predicate Stamps(fp: Fingerprint, clock: i64, lag: nat) {
    fp.ctime.Some? ==> clock - lag <= fp.ctime.value <= clock
  }

  /** A read that no change overlapped saw the file; any other may see anything. */
  predicate CanSee(f: File, dirty: bool, rows: Option<Content>) {
    !dirty && f.Present? ==> rows == Some(f.content)
  }

  predicate Enabled(s: State, step: Step, lag: nat) {
    match step
    case Tick(to) => s.clock <= to
    case Write(_, fp) => Stamps(fp, s.clock, lag)
    case Remove => true
    case BuildBegin => s.phase.Unbuilt?
    case BuildRead(made) => s.phase.Building? && CanSee(s.file, s.phase.dirty, Some(made))
    case BuildWithout => s.phase.Building?
    case QueryBegin => s.phase.Idle?
    case ScanMisses => s.phase.Begun?
    case Stat(_) => s.phase.Begun?
    case Skip => s.phase.Statted? && !MustRead(s.known, s.phase.now, s.built)
    case ReadContent(rows) => s.phase.Statted? && CanSee(s.file, s.phase.dirty, rows)
    case StatAgain(_) => s.phase.Parsed?
    case Commit => s.phase.Staged?
    case Rollback => s.phase.Staged?
  }

  function Next(s: State, step: Step, lag: nat): State
    requires Enabled(s, step, lag)
  {
    match step
    case Tick(to) => s.(clock := to)
    case Write(content, fp) => s.(file := Present(content, fp), phase := Soil(s.phase))
    case Remove => s.(file := Missing, phase := Soil(s.phase))
    case BuildBegin => s.(built := s.clock, phase := Building(false))
    case BuildRead(made) => s.(indexed := Some(made), known := Some(Built), phase := Idle)
    case BuildWithout => s.(phase := Idle)
    case QueryBegin => s.(phase := Begun(s.clock, false))
    case ScanMisses => s.(phase := Staged(None, None))
    case Stat(works) =>
      s.(phase := Statted(s.phase.start, s.phase.dirty, if works then StatOf(s.file) else None, ContentOf(s.file)))
    case Skip =>
      var adopted := Adopted(s.known, s.phase.now, s.built);
      s.(phase := Staged(s.indexed, if adopted.Some? then adopted else s.known))
    case ReadContent(rows) => s.(phase := Parsed(s.phase.start, s.phase.dirty, rows))
    case StatAgain(works) =>
      s.(phase := Staged(s.phase.got, Some(AfterRead(if works then StatOf(s.file) else None, s.phase.start))))
    case Commit => s.(indexed := s.phase.indexed, known := s.phase.known, phase := Idle)
    case Rollback => s.(phase := Idle)
  }

  /** A run from a file and an empty index. */
  predicate Run(states: seq<State>, steps: seq<Step>, lag: nat) {
    && |states| == |steps| + 1
    && states[0].phase.Unbuilt? && states[0].known.None? && states[0].indexed.None?
    && forall i | 0 <= i < |steps| ::
      Enabled(states[i], steps[i], lag) && states[i + 1] == Next(states[i], steps[i], lag)
  }

  // --------------------------------------------------------------- invariant

  /** The file as it stands may have changed since `start`. */
  predicate Touched(f: File, start: i64) {
    f.Present? && f.fp.ctime.Some? ==> start - SETTLE_NS <= f.fp.ctime.value
  }

  predicate Holds(f: File, rows: Option<Content>) { f.Present? && rows == Some(f.content) }

  /** A fingerprint too old for any later change to stamp again, and rows that
      are the file's as long as it keeps that fingerprint. */
  predicate Vouches(fp: Fingerprint, rows: Option<Content>, f: File, clock: i64) {
    && fp.ctime.Some? && fp.ctime.value < clock - SETTLE_NS
    && (f.Present? && f.fp == fp ==> rows == Some(f.content))
  }

  predicate Sound(known: Option<Known>, rows: Option<Content>, f: File, built: i64, clock: i64) {
    match known
    case None => true
    case Some(Built) => built <= clock && (Holds(f, rows) || Touched(f, built))
    case Some(Read(fp, settled)) => settled ==> fp.Some? && Vouches(fp.value, rows, f, clock)
  }

  predicate Inv(s: State) {
    && Sound(s.known, s.indexed, s.file, s.built, s.clock)
    && match s.phase
       case Unbuilt => s.known.None?
       case Building(dirty) => s.known.None? && s.built <= s.clock && (dirty ==> Touched(s.file, s.built))
       case Idle => true
       case Begun(start, dirty) => start <= s.clock && (dirty ==> Touched(s.file, start))
       case Statted(start, dirty, now, seen) =>
         && start <= s.clock && (dirty ==> Touched(s.file, start))
         && (!MustRead(s.known, now, s.built) ==>
               seen.Some? && s.indexed == seen && Vouches(now.value, s.indexed, s.file, s.clock))
       case Parsed(start, dirty, got) =>
         && start <= s.clock && (dirty ==> Touched(s.file, start))
         && (!dirty && s.file.Present? ==> got == Some(s.file.content))
       case Staged(rows, known) => Sound(known, rows, s.file, s.built, s.clock)
  }

  lemma {:induction false} StepKeepsInv(s: State, step: Step, lag: nat)
    requires lag <= SETTLE_NS && Inv(s) && Enabled(s, step, lag)
    ensures Inv(Next(s, step, lag))
  {
  }

  lemma {:induction false} RunKeepsInv(states: seq<State>, steps: seq<Step>, lag: nat, i: nat)
    requires lag <= SETTLE_NS && Run(states, steps, lag) && i < |states|
    ensures Inv(states[i])
  {
    if i > 0 {
      RunKeepsInv(states, steps, lag, i - 1);
      StepKeepsInv(states[i - 1], steps[i - 1], lag);
    }
  }

  /**
   The main theorem: in every interleaving, when change times lag the clock by
   at most SETTLE_NS, a file the rule does not read has, in the index, exactly
   the content it held when the query stat'd it.
   */
  lemma {:induction false} SkippedFileIsCurrent(states: seq<State>, steps: seq<Step>, lag: nat, i: nat)
    requires lag <= SETTLE_NS && Run(states, steps, lag) && i < |states|
    requires states[i].phase.Statted? && !MustRead(states[i].known, states[i].phase.now, states[i].built)
    ensures states[i].phase.seen.Some? && states[i].indexed == states[i].phase.seen
  {
    RunKeepsInv(states, steps, lag, i);
  }

  /**
   The bound is exact: one nanosecond more of lag, and some run skips a file
   whose content the index does not hold.
   */
  lemma {:induction false} LagBeyondSettleServesStaleRows() returns (states: seq<State>, steps: seq<Step>)
    ensures StaleSkip(states, steps, SETTLE_NS + 1)
  {
    var oldPrint := Fingerprint(0, 0, 1, 0, Some(0));
    var newPrint := Fingerprint(0, 0, 1, 0, Some(7_999_999_999));
    var s0 := State(10_000_000_000, Present(1, oldPrint), 0, None, None, Unbuilt);
    steps := [BuildBegin, BuildRead(1), Write(2, newPrint), QueryBegin, Stat(true)];
    var s1 := Next(s0, steps[0], SETTLE_NS + 1);
    var s2 := Next(s1, steps[1], SETTLE_NS + 1);
    var s3 := Next(s2, steps[2], SETTLE_NS + 1);
    var s4 := Next(s3, steps[3], SETTLE_NS + 1);
    var s5 := Next(s4, steps[4], SETTLE_NS + 1);
    states := [s0, s1, s2, s3, s4, s5];
  }

  predicate StaleSkip(states: seq<State>, steps: seq<Step>, lag: nat) {
    && Run(states, steps, lag)
    && var last := states[|states| - 1];
       && last.phase.Statted? && !MustRead(last.known, last.phase.now, last.built)
       && last.indexed != last.phase.seen
  }

  /**
   The other direction: a file read well after its last change, and unchanged
   since, is read no more; and one built well after it needs no first read.
   */
  lemma {:induction false} QuietFileIsSkipped(f: File, start: i64, built: i64)
    requires f.Present? && f.fp.ctime.Some?
    ensures f.fp.ctime.value < SaturatingSub(start, SETTLE_NS) <==>
      !MustRead(Some(AfterRead(StatOf(f), start)), StatOf(f), built)
    ensures f.fp.ctime.value < SaturatingSub(built, SETTLE_NS) <==> !MustRead(Some(Built), StatOf(f), built)
    ensures !MustRead(Some(Built), StatOf(f), built) ==>
      !MustRead(Adopted(Some(Built), StatOf(f), built), StatOf(f), built)
  {
  }

  /** A skipped file is remembered by the fingerprint it was skipped with, however
      it was known, and its rows stay. */
  lemma {:induction false} SkipRemembers(s: State, lag: nat)
    requires Enabled(s, Skip, lag)
    ensures var skipped := Next(s, Skip, lag);
      && Enabled(skipped, Commit, lag)
      && Next(skipped, Commit, lag).known == Some(Read(s.phase.now, true))
      && Next(skipped, Commit, lag).indexed == s.indexed
  {
  }

  /** The file's entry lets it be skipped as long as it keeps fingerprint `fp`. */
  predicate Settled(known: Option<Known>, fp: Fingerprint, built: i64) {
    known == Some(Read(Some(fp), true)) || (known == Some(Built) && ChangedBefore(fp, built))
  }

  /** A file with an entry that lets it be skipped, which nothing changed since
      the query in progress began. */
  predicate Quiet(s: State, fp: Fingerprint) {
    && s.file.Present? && s.file.fp == fp && Settled(s.known, fp, s.built) && ChangedBefore(fp, s.clock)
    && match s.phase
       case Idle => true
       case Begun(start, dirty) => !dirty && ChangedBefore(fp, start)
       case Statted(start, dirty, now, _) => !dirty && ChangedBefore(fp, start) && now == Some(fp)
       case Parsed(start, dirty, _) => !dirty && ChangedBefore(fp, start)
       case Staged(_, known) => Settled(known, fp, s.built)
       case _ => false
  }

  /** Steps that neither change the file nor lose sight of it. */
  predicate Undisturbed(step: Step) {
    !step.Write? && !step.Remove? && !step.ScanMisses? && step != Stat(false) && step != StatAgain(false)
  }

  lemma {:induction false} StepKeepsQuiet(s: State, fp: Fingerprint, step: Step, lag: nat)
    requires Quiet(s, fp) && Enabled(s, step, lag) && Undisturbed(step)
    ensures Quiet(Next(s, step, lag), fp)
  {
  }

  lemma {:induction false} RunKeepsQuiet(states: seq<State>, steps: seq<Step>, lag: nat, i: nat, j: nat,
      fp: Fingerprint)
    requires Run(states, steps, lag) && i <= j < |states| && Quiet(states[i], fp)
    requires forall k | i <= k < j :: Undisturbed(steps[k])
    ensures Quiet(states[j], fp)
  {
    if i < j {
      RunKeepsQuiet(states, steps, lag, i, j - 1, fp);
      StepKeepsQuiet(states[j - 1], fp, steps[j - 1], lag);
    }
  }

  /**
   The saving the rule is for: between queries a file with a settled entry may be
   skipped by every query from there on, until it changes or is lost from sight,
   whatever those queries did and however they ended.
   */
  lemma {:induction false} SettledFileIsSkipped(states: seq<State>, steps: seq<Step>, lag: nat, i: nat, j: nat)
    requires lag <= SETTLE_NS && Run(states, steps, lag) && i <= j < |states|
    requires states[i].phase.Idle? && states[i].file.Present?
    requires Settled(states[i].known, states[i].file.fp, states[i].built)
    requires forall k | i <= k < j :: Undisturbed(steps[k])
    ensures Settled(states[j].known, states[i].file.fp, states[j].built)
    ensures states[j].phase.Statted? ==> !MustRead(states[j].known, states[j].phase.now, states[j].built)
  {
    RunKeepsInv(states, steps, lag, i);
    RunKeepsQuiet(states, steps, lag, i, j, states[i].file.fp);
  }
}
