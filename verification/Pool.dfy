/**
 The concurrent invocations of one table's command (on_file.rs): a dispatcher
 hands out numbered jobs, workers take and run them, rows go through a bounded
 channel to the sink, and a failure stops what has not started. Every
 interleaving of these steps is one run.
 */
module Pool {
  import opened Wrappers
  import opened Values

  /** The rows of one block of an invocation's output. */
  type Chunk = seq<Row>

  type Message = string

  /** What running a job does: the chunks of rows it hands over, then how it
      ends. */
  datatype Outcome = Outcome(chunks: seq<Chunk>, failure: Option<Message>)

  /** The jobs in order, the cores to use, and the channel's room. */
  datatype Config = Config(jobs: seq<Outcome>, limit: nat, room: nat)

  datatype Worker = Waiting | Holding(job: nat) | Running(job: nat, sent: nat) | Failing(job: nat) | Stopped

  /** How far a job has come. */
  datatype Phase = Todo | Held | Ran(sent: nat) | Erring | Passed | Failed | Dropped

  datatype Piece = Piece(job: nat, chunk: Chunk)

  datatype Report = Report(job: nat, message: Message)

  /** `phases` is a history of the jobs; the rest is what the threads share. */
  datatype State = State(
    sent: nat, closed: bool, taken: nat, workers: seq<Worker>, aborted: bool,
    failures: seq<Report>, queue: seq<Piece>, sunk: seq<Piece>, phases: seq<Phase>)

  datatype Event =
    | Send | Close | Sink
    | Take(w: nat) | Check(w: nat) | Emit(w: nat) | Finish(w: nat) | Record(w: nat)

  function Least(a: nat, b: nat): nat { if a < b then a else b }

  function Start(c: Config): State {
    State(0, false, 0, [], false, [], [], [], seq(|c.jobs|, _ => Todo))
  }

  /** Numbers the jobs and says when another worker is wanted. */
  class Tally {
    var workers: nat
    const limit: nat
    var sent: nat

    constructor (limit: nat)
      ensures this.limit == limit && sent == 0 && Valid()
    {
      this.limit := limit;
      workers, sent := 0, 0;
    }

    /** A worker for every job, until every core has one. */
    ghost predicate Valid()
      reads this
    {
      workers == Least(sent, limit)
    }

    method Next() returns (index: nat, spawn: bool)
      requires Valid()
      modifies this
      ensures Valid() && index == old(sent) && sent == old(sent) + 1
      ensures spawn <==> workers > old(workers)
    {
      index := sent;
      sent := sent + 1;
      spawn := workers < limit;
      if spawn {
        workers := workers + 1;
      }
    }
  }

  /** One step of one thread; `None` where it cannot be taken now. */
  function Apply(c: Config, s: State, e: Event): Option<State> {
    match e
    case Send =>
      if s.closed || s.sent >= |c.jobs| then None
      else Some(s.(sent := s.sent + 1, workers := if |s.workers| < c.limit then s.workers + [Waiting] else s.workers))
    case Close => if s.closed || !(s.sent == |c.jobs| || s.aborted) then None else Some(s.(closed := true))
    case Sink => if s.queue == [] then None else Some(s.(queue := s.queue[1..], sunk := s.sunk + [s.queue[0]]))
    case _ => if e.w < |s.workers| then Act(c, s, e, s.workers[e.w]) else None
  }

  /** A step of worker `e.w`. */
  function Act(c: Config, s: State, e: Event, worker: Worker): Option<State>
    requires !e.Send? && !e.Close? && !e.Sink? && e.w < |s.workers|
  {
    match (e, worker)
    case (Take(w), Waiting) =>
      if s.taken < s.sent then
        Some(Moved(s.(taken := s.taken + 1), w, Holding(s.taken), s.taken, Held))
      else if s.closed then Some(s.(workers := s.workers[w := Stopped]))
      else None
    case (Check(w), Holding(job)) =>
      if s.aborted then Some(Moved(s, w, Stopped, job, Dropped))
      else Some(Moved(s, w, Running(job, 0), job, Ran(0)))
    case (Emit(w), Running(job, sent)) =>
      if job < |c.jobs| && sent < |c.jobs[job].chunks| && |s.queue| < c.room then
        Some(Moved(s.(queue := s.queue + [Piece(job, c.jobs[job].chunks[sent])]), w, Running(job, sent + 1), job,
          Ran(sent + 1)))
      else None
    case (Finish(w), Running(job, sent)) =>
      if job < |c.jobs| && sent == |c.jobs[job].chunks| then
        if c.jobs[job].failure.None? then Some(Moved(s, w, Waiting, job, Passed))
        else Some(Moved(s.(aborted := true), w, Failing(job), job, Erring))
      else None
    case (Record(w), Failing(job)) =>
      if job < |c.jobs| && c.jobs[job].failure.Some? then
        Some(Moved(s.(failures := s.failures + [Report(job, c.jobs[job].failure.value)]), w, Waiting, job, Failed))
      else None
    case _ => None
  }

  /** Worker `w` becomes `worker` and its job's phase `phase`. */
  function Moved(s: State, w: nat, worker: Worker, job: nat, phase: Phase): State
    requires w < |s.workers|
  {
    s.(workers := s.workers[w := worker], phases := if job < |s.phases| then s.phases[job := phase] else s.phases)
  }

  /** The state after `events`; `None` when one of them could not happen. */
  function Run(c: Config, s: State, events: seq<Event>): Option<State>
    decreases |events|
  {
    if events == [] then Some(s)
    else match Apply(c, s, events[0]) case None => None case Some(next) => Run(c, next, events[1..])
  }

  /** The dispatcher and every worker are done, and the sink has it all. */
  predicate Ended(s: State) { s.closed && s.queue == [] && forall w | 0 <= w < |s.workers| :: s.workers[w].Stopped? }

  /** The chunks of one job, in order. */
  function Of(pieces: seq<Piece>, job: nat): seq<Chunk> {
    if pieces == [] then []
    else Of(pieces[..|pieces| - 1], job) + if pieces[|pieces| - 1].job == job then [pieces[|pieces| - 1].chunk] else []
  }

  lemma {:induction false} OfConcat(a: seq<Piece>, b: seq<Piece>, job: nat)
    ensures Of(a + b, job) == Of(a, job) + Of(b, job)
    decreases |b|
  {
    if b == [] {
      assert a + b == a;
    } else {
      assert (a + b)[..|a + b| - 1] == a + b[..|b| - 1];
      OfConcat(a, b[..|b| - 1], job);
    }
  }

  /** How many of its chunks a job in `phase` has handed over. */
  function Given(phase: Phase, chunks: nat): nat {
    match phase
    case Ran(sent) => Least(sent, chunks)
    case Erring => chunks
    case Passed => chunks
    case Failed => chunks
    case _ => 0
  }

  // -------------------------------------------------------------- invariant

  ghost predicate Has(worker: Worker, job: nat) {
    (worker.Holding? || worker.Running? || worker.Failing?) && worker.job == job
  }

  /** A worker's state agrees with its job's phase. */
  ghost predicate Agrees(c: Config, s: State, worker: Worker)
    requires |s.phases| == |c.jobs|
  {
    match worker
    case Holding(job) => job < |c.jobs| && s.phases[job] == Held
    case Running(job, sent) => job < |c.jobs| && s.phases[job] == Ran(sent) && sent <= |c.jobs[job].chunks|
    case Failing(job) => job < |c.jobs| && s.phases[job] == Erring
    case Stopped => s.aborted || (s.closed && s.taken == s.sent)
    case Waiting => true
  }

  /** The counts agree, and a job is untouched exactly until it is taken. */
  ghost predicate Counted(c: Config, s: State) {
    && s.taken <= s.sent <= |c.jobs| && |s.phases| == |c.jobs|
    && |s.workers| == Least(s.sent, c.limit)
    && (s.closed ==> s.sent == |c.jobs| || s.aborted)
    && forall j | 0 <= j < |s.phases| :: s.phases[j].Todo? <==> j >= s.taken
  }

  /** Each job under way is with one worker. */
  ghost predicate Assigned(c: Config, s: State)
    requires |s.phases| == |c.jobs|
  {
    && (forall w | 0 <= w < |s.workers| :: Agrees(c, s, s.workers[w]))
    && (forall v, w, j: nat | 0 <= v < w < |s.workers| && Has(s.workers[v], j) :: !Has(s.workers[w], j))
    && (forall j: nat | j < |s.phases| && UnderWay(s.phases[j]) :: Someone(s, j))
  }

  predicate UnderWay(phase: Phase) { phase.Held? || phase.Ran? || phase.Erring? }

  ghost predicate Someone(s: State, job: nat) { exists w :: 0 <= w < |s.workers| && Has(s.workers[w], job) }

  /** Jobs ended as their outcome says, and a failure is behind every stop. */
  ghost predicate Judged(c: Config, s: State)
    requires |s.phases| == |c.jobs|
  {
    && (forall j | 0 <= j < |c.jobs| && s.phases[j].Passed? :: c.jobs[j].failure.None?)
    && (forall j | 0 <= j < |c.jobs| && (s.phases[j].Erring? || s.phases[j].Failed?) ::
      c.jobs[j].failure.Some? && s.aborted)
    && (forall j | 0 <= j < |c.jobs| && s.phases[j].Dropped? :: s.aborted)
    && (s.aborted ==> exists j :: 0 <= j < |c.jobs| && (s.phases[j].Erring? || s.phases[j].Failed?))
  }

  /** The failures recorded are the failed jobs', each once. */
  ghost predicate Told(c: Config, s: State)
    requires |s.phases| == |c.jobs|
  {
    && (forall k | 0 <= k < |s.failures| :: s.failures[k].job < |c.jobs| && s.phases[s.failures[k].job].Failed?
                                          && c.jobs[s.failures[k].job].failure == Some(s.failures[k].message))
    && (forall k, m | 0 <= k < m < |s.failures| :: s.failures[k].job != s.failures[m].job)
    && (forall j: nat | j < |c.jobs| && s.phases[j].Failed? :: Reported(s, j))
  }

  ghost predicate Reported(s: State, job: nat) { exists k :: 0 <= k < |s.failures| && s.failures[k].job == job }

  /** Each job's chunks so far were handed over once, in order. */
  ghost predicate Delivered(c: Config, s: State)
    requires |s.phases| == |c.jobs|
  {
    && |s.queue| <= c.room
    && forall j | 0 <= j < |c.jobs| :: Of(s.sunk + s.queue, j) == Handed(c, s, j)
  }

  function Handed(c: Config, s: State, j: nat): seq<Chunk>
    requires j < |c.jobs| && j < |s.phases|
  {
    var chunks := c.jobs[j].chunks;
    chunks[..Least(Given(s.phases[j], |chunks|), |chunks|)]
  }

  ghost predicate Inv(c: Config, s: State) {
    Counted(c, s) && Assigned(c, s) && Judged(c, s) && Told(c, s) && Delivered(c, s)
  }

  lemma {:induction false} StartInv(c: Config)
    ensures Inv(c, Start(c))
  {
  }

  lemma {:induction false} SendKeeps(c: Config, s: State, s': State)
    requires Inv(c, s) && Apply(c, s, Send) == Some(s')
    ensures Inv(c, s')
  {
    forall j: nat | j < |s'.phases| && UnderWay(s'.phases[j]) ensures Someone(s', j) {
      assert Someone(s, j);
      var w :| 0 <= w < |s.workers| && Has(s.workers[w], j);
      assert Has(s'.workers[w], j);
    }
  }

  lemma {:induction false} CloseKeeps(c: Config, s: State, s': State)
    requires Inv(c, s) && Apply(c, s, Close) == Some(s')
    ensures Inv(c, s')
  {
    forall j: nat | j < |s'.phases| && UnderWay(s'.phases[j]) ensures Someone(s', j) {
      assert Someone(s, j);
    }
    forall j: nat | j < |c.jobs| && s'.phases[j].Failed? ensures Reported(s', j) {
      assert Reported(s, j);
    }
  }

  lemma {:induction false} SinkKeeps(c: Config, s: State, s': State)
    requires Inv(c, s) && Apply(c, s, Sink) == Some(s')
    ensures Inv(c, s')
  {
    assert s'.sunk + s'.queue == s.sunk + s.queue;
  }

  /** Worker `w`, which had job `j` or none, moves on and the job with it. */
  lemma {:induction false} MoveKeepsAssigned(c: Config, s: State, s': State, w: nat, worker: Worker, j: nat,
      phase: Phase)
    requires |s.phases| == |c.jobs| && Assigned(c, s) && w < |s.workers| && j < |c.jobs|
    requires s'.workers == s.workers[w := worker] && s'.phases == s.phases[j := phase]
    requires s.workers[w].Waiting? || Has(s.workers[w], j)
    requires forall v | 0 <= v < |s.workers| && v != w :: !Has(s.workers[v], j)
    requires Agrees(c, s', worker) && (UnderWay(phase) ==> Has(worker, j))
    requires forall k: nat | Has(worker, k) :: k == j
    requires s.aborted ==> s'.aborted
    requires s.closed && s.taken == s.sent ==> s'.closed && s'.taken == s'.sent
    ensures Assigned(c, s')
  {
    forall v | 0 <= v < |s'.workers| ensures Agrees(c, s', s'.workers[v]) {
      if v != w {
        assert Agrees(c, s, s.workers[v]);
        assert !Has(s.workers[v], j);
      }
    }
    forall k: nat | k < |s'.phases| && UnderWay(s'.phases[k]) ensures Someone(s', k) {
      if k == j {
        assert Has(s'.workers[w], j);
      } else {
        assert Someone(s, k);
        var v :| 0 <= v < |s.workers| && Has(s.workers[v], k);
        assert v != w && Has(s'.workers[v], k);
      }
    }
  }

  /** No other worker has the job worker `w` has. */
  lemma {:induction false} AloneOn(c: Config, s: State, w: nat, j: nat)
    requires |s.phases| == |c.jobs| && Assigned(c, s) && w < |s.workers|
    requires Has(s.workers[w], j) || (j < |c.jobs| && s.phases[j].Todo?)
    ensures forall v | 0 <= v < |s.workers| && v != w :: !Has(s.workers[v], j)
  {
    forall v | 0 <= v < |s.workers| && v != w ensures !Has(s.workers[v], j) {
      assert Agrees(c, s, s.workers[v]);
    }
  }

  lemma {:induction false} TakeKeeps(c: Config, s: State, w: nat, s': State)
    requires Inv(c, s) && Apply(c, s, Take(w)) == Some(s')
    ensures Inv(c, s')
  {
    if s.taken < s.sent {
      AloneOn(c, s, w, s.taken);
      MoveKeepsAssigned(c, s, s', w, Holding(s.taken), s.taken, Held);
      TakeKeepsRest(c, s, w, s');
    } else {
      StopKeeps(c, s, w, s');
    }
  }

  lemma {:induction false} TakeKeepsRest(c: Config, s: State, w: nat, s': State)
    requires Inv(c, s) && Apply(c, s, Take(w)) == Some(s') && s.taken < s.sent
    ensures Counted(c, s') && Judged(c, s') && Told(c, s') && Delivered(c, s')
  {
    SameReports(c, s, s', s.taken);
    forall j | 0 <= j < |c.jobs| ensures Of(s'.sunk + s'.queue, j) == Handed(c, s', j) {
      assert Of(s.sunk + s.queue, j) == Handed(c, s, j);
    }
    if s.aborted {
      var j :| 0 <= j < |c.jobs| && (s.phases[j].Erring? || s.phases[j].Failed?);
      assert s'.phases[j] == s.phases[j];
    }
  }

  /** A step that fails no job leaves the reports right. */
  lemma {:induction false} SameReports(c: Config, s: State, s': State, j: nat)
    requires |s.phases| == |c.jobs| && Told(c, s) && j < |c.jobs| && !s.phases[j].Failed?
    requires s'.failures == s.failures && |s'.phases| == |s.phases| && !s'.phases[j].Failed?
    requires s'.phases == s.phases[j := s'.phases[j]]
    ensures Told(c, s')
  {
    forall k: nat | k < |c.jobs| && s'.phases[k].Failed? ensures Reported(s', k) {
      assert Reported(s, k);
    }
  }

  lemma {:induction false} StopKeeps(c: Config, s: State, w: nat, s': State)
    requires Inv(c, s) && w < |s.workers| && s.workers[w].Waiting? && s.closed && s.taken == s.sent
    requires s' == s.(workers := s.workers[w := Stopped])
    ensures Inv(c, s')
  {
    forall j: nat | j < |s'.phases| && UnderWay(s'.phases[j]) ensures Someone(s', j) {
      assert Someone(s, j);
      var v :| 0 <= v < |s.workers| && Has(s.workers[v], j);
      assert Has(s'.workers[v], j);
    }
    forall v | 0 <= v < |s'.workers| ensures Agrees(c, s', s'.workers[v]) {
      assert Agrees(c, s, s.workers[v]);
    }
    forall j: nat | j < |c.jobs| && s'.phases[j].Failed? ensures Reported(s', j) {
      assert Reported(s, j);
    }
  }

  lemma {:induction false} CheckKeeps(c: Config, s: State, w: nat, s': State)
    requires Inv(c, s) && Apply(c, s, Check(w)) == Some(s')
    ensures Inv(c, s')
  {
    var j := s.workers[w].job;
    assert Agrees(c, s, s.workers[w]);
    AloneOn(c, s, w, j);
    MoveKeepsAssigned(c, s, s', w, s'.workers[w], j, s'.phases[j]);
    SameReports(c, s, s', j);
    StillAborted(c, s, s', j);
    forall k | 0 <= k < |c.jobs| ensures Of(s'.sunk + s'.queue, k) == Handed(c, s', k) {
      assert Of(s.sunk + s.queue, k) == Handed(c, s, k);
    }
  }

  /** The failure behind a stop stays when another job moves. */
  lemma {:induction false} StillAborted(c: Config, s: State, s': State, j: nat)
    requires |s.phases| == |c.jobs| && Judged(c, s) && j < |c.jobs| && !s.phases[j].Erring? && !s.phases[j].Failed?
    requires |s'.phases| == |s.phases| && s'.phases == s.phases[j := s'.phases[j]]
    ensures s.aborted ==> exists k :: 0 <= k < |c.jobs| && (s'.phases[k].Erring? || s'.phases[k].Failed?)
  {
    if s.aborted {
      var k :| 0 <= k < |c.jobs| && (s.phases[k].Erring? || s.phases[k].Failed?);
      assert s'.phases[k] == s.phases[k];
    }
  }

  lemma {:induction false} EmitKeeps(c: Config, s: State, w: nat, s': State)
    requires Inv(c, s) && Apply(c, s, Emit(w)) == Some(s')
    ensures Inv(c, s')
  {
    var j := s.workers[w].job;
    assert Agrees(c, s, s.workers[w]);
    AloneOn(c, s, w, j);
    MoveKeepsAssigned(c, s, s', w, s'.workers[w], j, s'.phases[j]);
    SameReports(c, s, s', j);
    StillAborted(c, s, s', j);
    EmitDelivers(c, s, w, s');
  }

  lemma {:induction false} EmitDelivers(c: Config, s: State, w: nat, s': State)
    requires Inv(c, s) && Apply(c, s, Emit(w)) == Some(s')
    ensures Delivered(c, s')
  {
    var j, k := s.workers[w].job, s.workers[w].sent;
    assert Agrees(c, s, s.workers[w]);
    forall i | 0 <= i < |c.jobs| ensures Of(s'.sunk + s'.queue, i) == Handed(c, s', i) {
      assert Of(s.sunk + s.queue, i) == Handed(c, s, i);
      OneMore(s.sunk, s.queue, Piece(j, c.jobs[j].chunks[k]), i);
      assert i == j ==> c.jobs[j].chunks[..k + 1] == c.jobs[j].chunks[..k] + [c.jobs[j].chunks[k]];
    }
  }

  lemma {:induction false} OneMore(sunk: seq<Piece>, queue: seq<Piece>, piece: Piece, job: nat)
    ensures Of(sunk + (queue + [piece]), job) == Of(sunk + queue, job) + if piece.job == job then [piece.chunk] else []
  {
    assert sunk + (queue + [piece]) == (sunk + queue) + [piece];
    OfConcat(sunk + queue, [piece], job);
  }

  lemma {:induction false} FinishKeeps(c: Config, s: State, w: nat, s': State)
    requires Inv(c, s) && Apply(c, s, Finish(w)) == Some(s')
    ensures Inv(c, s')
  {
    var j := s.workers[w].job;
    assert Agrees(c, s, s.workers[w]);
    AloneOn(c, s, w, j);
    MoveKeepsAssigned(c, s, s', w, s'.workers[w], j, s'.phases[j]);
    SameReports(c, s, s', j);
    FinishJudges(c, s, w, s');
    FinishDelivers(c, s, w, s');
  }

  lemma {:induction false} FinishJudges(c: Config, s: State, w: nat, s': State)
    requires Inv(c, s) && Apply(c, s, Finish(w)) == Some(s')
    ensures |s'.phases| == |c.jobs| && Judged(c, s')
  {
    assert Agrees(c, s, s.workers[w]);
    StillAborted(c, s, s', s.workers[w].job);
  }

  lemma {:induction false} FinishDelivers(c: Config, s: State, w: nat, s': State)
    requires Inv(c, s) && Apply(c, s, Finish(w)) == Some(s')
    ensures |s'.phases| == |c.jobs| && Delivered(c, s')
  {
    assert Agrees(c, s, s.workers[w]);
    forall k | 0 <= k < |c.jobs| ensures Of(s'.sunk + s'.queue, k) == Handed(c, s', k) {
      assert Of(s.sunk + s.queue, k) == Handed(c, s, k);
    }
  }

  lemma {:induction false} RecordKeeps(c: Config, s: State, w: nat, s': State)
    requires Inv(c, s) && Apply(c, s, Record(w)) == Some(s')
    ensures Inv(c, s')
  {
    var j := s.workers[w].job;
    assert Agrees(c, s, s.workers[w]);
    AloneOn(c, s, w, j);
    MoveKeepsAssigned(c, s, s', w, s'.workers[w], j, s'.phases[j]);
    RecordTells(c, s, w, s');
    forall k | 0 <= k < |c.jobs| ensures Of(s'.sunk + s'.queue, k) == Handed(c, s', k) {
      assert Of(s.sunk + s.queue, k) == Handed(c, s, k);
    }
    assert s'.phases[j].Failed?;
  }

  lemma {:induction false} RecordTells(c: Config, s: State, w: nat, s': State)
    requires Inv(c, s) && Apply(c, s, Record(w)) == Some(s')
    ensures Told(c, s')
  {
    var j, n := s.workers[w].job, |s.failures|;
    assert Agrees(c, s, s.workers[w]);
    forall k: nat | k < |c.jobs| && s'.phases[k].Failed? ensures Reported(s', k) {
      if k == j {
        assert s'.failures[n].job == j;
      } else {
        assert Reported(s, k);
        var i :| 0 <= i < n && s.failures[i].job == k;
        assert s'.failures[i].job == k;
      }
    }
  }

  /** Every step of every thread keeps the invariant. */
  lemma {:induction false} StepKeeps(c: Config, s: State, e: Event, s': State)
    requires Inv(c, s) && Apply(c, s, e) == Some(s')
    ensures Inv(c, s')
  {
    match e
    case Send => SendKeeps(c, s, s');
    case Close => CloseKeeps(c, s, s');
    case Sink => SinkKeeps(c, s, s');
    case Take(w) => TakeKeeps(c, s, w, s');
    case Check(w) => CheckKeeps(c, s, w, s');
    case Emit(w) => EmitKeeps(c, s, w, s');
    case Finish(w) => FinishKeeps(c, s, w, s');
    case Record(w) => RecordKeeps(c, s, w, s');
  }

  lemma {:induction false} RunKeeps(c: Config, s: State, events: seq<Event>)
    requires Inv(c, s) && Run(c, s, events).Some?
    ensures Inv(c, Run(c, s, events).value)
    decreases |events|
  {
    if events != [] {
      StepKeeps(c, s, events[0], Apply(c, s, events[0]).value);
      RunKeeps(c, Apply(c, s, events[0]).value, events[1..]);
    }
  }

  // ----------------------------------------------------------------- results

  /** The report with the lowest number. */
  function Lowest(failures: seq<Report>): (r: Report)
    requires failures != []
    ensures r in failures && forall f | f in failures :: r.job <= f.job
  {
    var n := |failures| - 1;
    assert failures == failures[..n] + [failures[n]];
    if n == 0 then failures[0]
    else var rest := Lowest(failures[..n]); if rest.job <= failures[n].job then rest else failures[n]
  }

  /** What the whole run comes to. */
  function Result(s: State): Option<Message> { if s.failures == [] then None else Some(Lowest(s.failures).message) }

  ghost predicate Reachable(c: Config, s: State) { exists events :: Run(c, Start(c), events) == Some(s) }

  lemma {:induction false} ReachableInv(c: Config, s: State)
    requires Reachable(c, s)
    ensures Inv(c, s)
  {
    var events :| Run(c, Start(c), events) == Some(s);
    StartInv(c);
    RunKeeps(c, Start(c), events);
  }

  /** At any moment, what the sink and the channel hold of a job is the first
      of its chunks, each once and in order. */
  lemma {:induction false} ChunksInOrder(c: Config, s: State, j: nat)
    requires Reachable(c, s) && j < |c.jobs|
    ensures Of(s.sunk + s.queue, j) <= c.jobs[j].chunks
  {
    ReachableInv(c, s);
    assert Of(s.sunk + s.queue, j) == Handed(c, s, j);
  }

  lemma {:induction false} NothingUnderWay(c: Config, s: State)
    requires Inv(c, s) && Ended(s)
    ensures forall j | 0 <= j < |c.jobs| :: !UnderWay(s.phases[j])
  {
    forall j: nat | j < |c.jobs| ensures !UnderWay(s.phases[j]) {
      assert !Someone(s, j);
    }
  }

  lemma {:induction false} EndedWell(c: Config, s: State)
    requires Inv(c, s) && Ended(s) && c.limit > 0 && s.failures == []
    ensures forall j | 0 <= j < |c.jobs| :: s.phases[j].Passed?
  {
    NothingUnderWay(c, s);
    if s.aborted {
      var j: nat :| j < |c.jobs| && (s.phases[j].Erring? || s.phases[j].Failed?);
      assert !Reported(s, j);
    }
    if |c.jobs| > 0 {
      assert Agrees(c, s, s.workers[0]);
    }
    forall j: nat | j < |c.jobs| ensures s.phases[j].Passed? {
      assert s.phases[j].Todo? <==> j >= s.taken;
      assert !Reported(s, j);
    }
  }

  /**
   A run that ends without an error ran every job, each once and with success,
   and the sink received each job's chunks once and in that job's order. It
   ends so exactly when no job fails.
   */
  lemma {:induction false} OkMeansAllDelivered(c: Config, s: State)
    requires Reachable(c, s) && Ended(s) && c.limit > 0
    ensures Result(s).None? <==> forall j | 0 <= j < |c.jobs| :: c.jobs[j].failure.None?
    ensures Result(s).None? ==> forall j | 0 <= j < |c.jobs| :: Of(s.sunk, j) == c.jobs[j].chunks
  {
    ReachableInv(c, s);
    if s.failures == [] {
      EndedWell(c, s);
      assert s.sunk + s.queue == s.sunk;
      forall j | 0 <= j < |c.jobs| ensures Of(s.sunk, j) == c.jobs[j].chunks {
        assert Of(s.sunk + s.queue, j) == Handed(c, s, j);
      }
    } else {
      assert c.jobs[s.failures[0].job].failure.Some?;
    }
  }

  /** An error is the one of the lowest-numbered job known to have failed. */
  lemma {:induction false} ErrorIsLowestRecorded(c: Config, s: State)
    requires Reachable(c, s) && Result(s).Some?
    ensures var first := Lowest(s.failures).job;
      && first < |c.jobs| && c.jobs[first].failure == Result(s)
      && forall f | f in s.failures :: first <= f.job < |c.jobs| && c.jobs[f.job].failure == Some(f.message)
  {
    ReachableInv(c, s);
    forall f | f in s.failures ensures f.job < |c.jobs| && c.jobs[f.job].failure == Some(f.message) {
      var k :| 0 <= k < |s.failures| && s.failures[k] == f;
    }
  }

  // ---------------------------------------------------------------- progress

  /** A step some thread can take. */
  function Able(c: Config, s: State, e: Event): bool { Apply(c, s, e).Some? }

  /** Until the run has ended some thread can move. */
  lemma {:induction false} NeverStuck(c: Config, s: State)
    requires Reachable(c, s) && !Ended(s) && c.room > 0
    ensures exists e :: Able(c, s, e)
  {
    ReachableInv(c, s);
    if s.queue != [] {
      assert Able(c, s, Sink);
    } else if w: nat :| w < |s.workers| && !s.workers[w].Stopped? && !(s.workers[w].Waiting? && !s.closed) {
      assert Agrees(c, s, s.workers[w]);
      match s.workers[w]
      case Waiting => assert Able(c, s, Take(w));
      case Holding(j) => assert Able(c, s, Check(w));
      case Running(j, sent) =>
        if sent < |c.jobs[j].chunks| {
          assert Able(c, s, Emit(w));
        } else {
          assert Able(c, s, Finish(w));
        }
      case Failing(j) => assert Able(c, s, Record(w));
    } else if s.sent < |c.jobs| {
      assert Able(c, s, Send);
    } else {
      assert Able(c, s, Close);
    }
  }

  /** What a job still has to do. */
  function Weight(phase: Phase, chunks: nat): nat {
    match phase
    case Todo => 2 * chunks + 4
    case Held => 2 * chunks + 3
    case Ran(sent) => 2 * (chunks - Least(sent, chunks)) + 2
    case Erring => 1
    case _ => 0
  }

  function Weights(c: Config, phases: seq<Phase>, n: nat): nat
    requires n <= |phases| == |c.jobs|
  {
    if n == 0 then 0 else Weights(c, phases, n - 1) + Weight(phases[n - 1], |c.jobs[n - 1].chunks|)
  }

  function Live(workers: seq<Worker>, n: nat): nat
    requires n <= |workers|
  {
    if n == 0 then 0 else Live(workers, n - 1) + if workers[n - 1].Stopped? then 0 else 1
  }

  /** How many steps may be left. */
  function Left(c: Config, s: State): nat
    requires |s.phases| == |c.jobs| && s.sent <= |c.jobs|
  {
    (if s.closed then 0 else 1) + 2 * (|c.jobs| - s.sent) + Weights(c, s.phases, |c.jobs|) +
      Live(s.workers, |s.workers|) + |s.queue|
  }

  lemma {:induction false} WeightsMove(c: Config, phases: seq<Phase>, n: nat, j: nat, phase: Phase)
    requires n <= |phases| == |c.jobs| && j < |phases|
    ensures Weights(c, phases[j := phase], n) == Weights(c, phases, n) +
      (if j < n then Weight(phase, |c.jobs[j].chunks|) - Weight(phases[j], |c.jobs[j].chunks|) else 0)
  {
    if n > 0 {
      WeightsMove(c, phases, n - 1, j, phase);
    }
  }

  lemma {:induction false} LiveMoves(workers: seq<Worker>, n: nat, w: nat, worker: Worker)
    requires n <= |workers| && w < |workers|
    ensures Live(workers[w := worker], n) == Live(workers, n) +
      (if w < n then (if worker.Stopped? then 0 else 1) - (if workers[w].Stopped? then 0 else 1) else 0)
  {
    if n > 0 {
      LiveMoves(workers, n - 1, w, worker);
    }
  }

  lemma {:induction false} LivePrefix(workers: seq<Worker>, more: seq<Worker>, n: nat)
    requires n <= |workers|
    ensures Live(workers + more, n) == Live(workers, n)
  {
    if n > 0 {
      LivePrefix(workers, more, n - 1);
    }
  }

  /** A worker that takes its job further leaves less of it. */
  lemma {:induction false} MovesRunOut(c: Config, s: State, e: Event, s': State, j: nat)
    requires Inv(c, s) && Apply(c, s, e) == Some(s') && !e.Send? && !e.Close? && !e.Sink?
    requires j < |c.jobs| && s'.phases == s.phases[j := s'.phases[j]] && s'.sent == s.sent && s'.closed == s.closed
    requires var chunks := |c.jobs[j].chunks|;
      Weight(s'.phases[j], chunks) + |s'.queue| < Weight(s.phases[j], chunks) + |s.queue|
    ensures Left(c, s') < Left(c, s)
  {
    LiveMoves(s.workers, |s.workers|, e.w, s'.workers[e.w]);
    WeightsMove(c, s.phases, |c.jobs|, j, s'.phases[j]);
  }

  lemma {:induction false} WorkRunsOut(c: Config, s: State, e: Event, s': State)
    requires Inv(c, s) && Apply(c, s, e) == Some(s') && (e.Check? || e.Emit? || e.Finish? || e.Record?)
    ensures |s'.phases| == |c.jobs| && s'.sent <= |c.jobs| && Left(c, s') < Left(c, s)
  {
    assert Agrees(c, s, s.workers[e.w]);
    MovesRunOut(c, s, e, s', s.workers[e.w].job);
  }

  lemma {:induction false} TakesRunOut(c: Config, s: State, w: nat, s': State)
    requires Inv(c, s) && Apply(c, s, Take(w)) == Some(s')
    ensures |s'.phases| == |c.jobs| && s'.sent <= |c.jobs| && Left(c, s') < Left(c, s)
  {
    if s.taken < s.sent {
      MovesRunOut(c, s, Take(w), s', s.taken);
    } else {
      LiveMoves(s.workers, |s.workers|, w, Stopped);
    }
  }

  /** Every step leaves fewer to take. */
  lemma {:induction false} StepsRunOut(c: Config, s: State, e: Event, s': State)
    requires Inv(c, s) && Apply(c, s, e) == Some(s')
    ensures |s'.phases| == |c.jobs| && s'.sent <= |c.jobs| && Left(c, s') < Left(c, s)
  {
    match e
    case Send => LivePrefix(s.workers, [Waiting], |s.workers|);
    case Close =>
    case Sink =>
    case Take(w) => TakesRunOut(c, s, w, s');
    case _ => WorkRunsOut(c, s, e, s');
  }

  /** So every run ends, within a number of steps known at its start. */
  lemma {:induction false} RunsEnd(c: Config, s: State, events: seq<Event>)
    requires Inv(c, s) && Run(c, s, events).Some?
    ensures |events| <= Left(c, s)
    decreases |events|
  {
    if events != [] {
      var s' := Apply(c, s, events[0]).value;
      StepKeeps(c, s, events[0], s');
      StepsRunOut(c, s, events[0], s');
      RunsEnd(c, s', events[1..]);
    }
  }

  // ------------------------------------------------- what a failure stops

  /** Not run, nor being run. */
  predicate Unrun(phase: Phase) { phase.Todo? || phase.Held? || phase.Dropped? }

  lemma {:induction false} AbortHolds(c: Config, s: State, e: Event, s': State, j: nat)
    requires Inv(c, s) && Apply(c, s, e) == Some(s') && s.aborted && j < |c.jobs| && Unrun(s.phases[j])
    ensures |s'.phases| == |c.jobs| && s'.aborted && Unrun(s'.phases[j])
  {
    if !e.Send? && !e.Close? && !e.Sink? {
      assert Agrees(c, s, s.workers[e.w]);
    }
  }

  /** Once a job has failed, no job that has not started is ever run, and none
      of its rows are handed over. */
  lemma {:induction false} FailureStopsTheRest(c: Config, s: State, events: seq<Event>, j: nat)
    requires Inv(c, s) && s.aborted && j < |c.jobs| && Unrun(s.phases[j]) && Run(c, s, events).Some?
    ensures var end := Run(c, s, events).value;
      |end.phases| == |c.jobs| && end.aborted && Unrun(end.phases[j]) && Of(end.sunk + end.queue, j) == []
    decreases |events|
  {
    if events == [] {
      assert Of(s.sunk + s.queue, j) == Handed(c, s, j);
    } else {
      var next := Apply(c, s, events[0]).value;
      AbortHolds(c, s, events[0], next, j);
      StepKeeps(c, s, events[0], next);
      FailureStopsTheRest(c, next, events[1..], j);
    }
  }

  /** No more workers than cores or jobs, and no more waiting than the channel
      has room for. */
  lemma {:induction false} Bounded(c: Config, s: State)
    requires Reachable(c, s)
    ensures |s.workers| <= c.limit && |s.workers| <= s.sent <= |c.jobs| && |s.queue| <= c.room
  {
    ReachableInv(c, s);
  }
}
