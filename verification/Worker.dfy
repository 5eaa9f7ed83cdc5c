/**
 The worker object and the query method, statement for statement as functions.rs
 and db.rs update them, tied to the transition functions of Batching.
 */
module WorkerObject {
  import opened Wrappers
  import opened Values
  import opened Batching
  import opened Evaluation

  /** Counts the calls a query pays for; every worker shares one. */
  class CallReporter {
    var count: nat
    var cached: nat

    constructor ()
      ensures count == 0 && cached == 0
    {
      count, cached := 0, 0;
    }

    method Phase()
      modifies this
      ensures count == 0 && cached == 0
    {
      count, cached := 0, 0;
    }

    method Record()
      modifies this
      ensures count == old(count) + 1 && cached == old(cached)
    {
      count := count + 1;
    }

    method MarkCached()
      modifies this
      ensures count == old(count) && cached == old(cached) + 1
    {
      cached := cached + 1;
    }
  }

  class Worker {
    const batch: Option<nat>
    const link: Link
    const calls: CallReporter
    var up: bool
    var attempts: nat
    var collect: Option<Collect>
    var prefetched: map<Line, CallResult>
    ghost var wire: seq<Request>
    ghost var recorded: nat
    ghost var hits: nat

    ghost function State(): WorkerState
      reads this
    {
      WorkerState(batch, up, attempts, collect, prefetched, wire, recorded, hits)
    }

    /** The reporter moved by exactly what this worker added to it. */
    twostate predicate Counted()
      reads this, calls
    {
      && calls.count + old(recorded) == old(calls.count) + recorded
      && calls.cached + old(hits) == old(calls.cached) + hits
    }

    constructor (batch: Option<nat>, link: Link, calls: CallReporter)
      ensures this.batch == batch && this.link == link && this.calls == calls
      ensures State() == WorkerState(batch, false, 0, None, map[], [], 0, 0)
    {
      this.batch, this.link, this.calls := batch, link, calls;
      up, attempts, collect, prefetched := false, 0, None, map[];
      wire, recorded, hits := [], 0, 0;
    }

    method Exchange(request: Request, count: nat) returns (fault: Option<Fault>)
      modifies this
      ensures (fault, State()) == Batching.Exchange(link, old(State()), request, count)
    {
      var fate := link.fate(attempts);
      attempts := attempts + 1;
      if !up {
        if !fate.starts {
          return Some(NotStarted);
        }
        up := true;
      }
      if !fate.accepts {
        up := false;
        return Some(NotAccepting);
      }
      wire := wire + [request];
      match fate.delivery {
        case Delivered => fault := None;
        case LateReply =>
          up := false;
          fault := Some(TimedOut(count));
        case NoReply =>
          up := false;
          fault := Some(ExitedEarly);
      }
    }

    method Record()
      modifies this`recorded, calls
      ensures recorded == old(recorded) + 1 && Counted()
    {
      calls.Record();
      recorded := recorded + 1;
    }

    method MarkCached()
      modifies this`hits, calls
      ensures hits == old(hits) + 1 && Counted()
    {
      calls.MarkCached();
      hits := hits + 1;
    }

    /** Empty the queue onto the wire and keep what comes back. */
    method Flush() returns (fault: Option<Fault>)
      modifies this, calls
      ensures (fault, State()) == Batching.Flush(link, old(State()))
      ensures Counted()
    {
      if collect.None? || collect.value.pending == [] {
        return None;
      }
      var pending := collect.value.pending;
      collect := Some(collect.value.(pending := []));
      var lines := RequestLines(pending);
      fault := Exchange(Batched(lines), |lines|);
      if fault.Some? {
        return;
      }
      FileReplies(lines, BatchReplies(link.process.many(lines), |lines|));
    }

    /** File a batch's replies, each under its call's line. */
    method FileReplies(lines: seq<Line>, replies: seq<CallResult>)
      requires |lines| == |replies|
      modifies this`prefetched, this`recorded, this`hits, calls
      ensures prefetched == File(old(prefetched), lines, replies)
      ensures recorded == old(recorded) + |replies| && hits == old(hits) + Hits(replies)
      ensures Counted()
    {
      for i := 0 to |replies|
        invariant recorded == old(recorded) + i
        invariant hits + Hits(replies[i..]) == old(hits) + Hits(replies)
        invariant File(prefetched, lines[i..], replies[i..]) == File(old(prefetched), lines, replies)
        invariant Counted()
      {
        assert replies[i..][1..] == replies[i + 1..] && lines[i..][1..] == lines[i + 1..];
        Record();
        if FromCache(replies[i]) {
          MarkCached();
        }
        prefetched := prefetched[lines[i] := replies[i]];
      }
    }

    /** A call's own round trip; inside a pass its reply is kept. */
    method RoundTrip(key: Line) returns (reply: CallResult)
      modifies this, calls
      ensures (reply, State()) == CallAlone(link, old(State()), key)
      ensures Counted()
    {
      Record();
      var fault := Exchange(Single(key), 1);
      reply := if fault.Some? then Failure(fault.value) else Decode(link.process.one(key));
      assert Hits([reply]) == if FromCache(reply) then 1 else 0;
      if FromCache(reply) {
        MarkCached();
      }
      if collect.Some? {
        if reply.Success? && reply.value.value != Null {
          collect := Some(collect.value.(placeholder := Some(reply.value.value)));
        }
        collect := Some(collect.value.(queued := collect.value.queued + {key}));
        prefetched := prefetched[key := reply];
      }
    }

    /** A call behind the placeholder: queue its arguments, flush a full batch. */
    method Queue(args: seq<Value>) returns (reply: CallResult)
      requires collect.Some? && collect.value.placeholder.Some?
      modifies this, calls
      ensures (reply, State()) == CallLater(link, old(State()), args)
      ensures Counted()
    {
      var key := RequestLine(args);
      collect := Some(collect.value.(invoked := true));
      reply := Success(Reply(collect.value.placeholder.value, false));
      if key !in collect.value.queued {
        collect := Some(collect.value.(queued := collect.value.queued + {key},
          pending := collect.value.pending + [args]));
        if batch.None? || |collect.value.pending| >= batch.value {
          var fault := Flush();
          if fault.Some? {
            reply := Failure(fault.value);
          }
        }
      }
    }

    /** Answer one call. */
    method Call(args: seq<Value>) returns (reply: CallResult)
      modifies this, calls
      ensures (reply, State()) == Batching.Call(link, old(State()), args)
      ensures Counted()
    {
      var key := RequestLine(args);
      if key in prefetched {
        reply := prefetched[key];
      } else if collect.Some? && collect.value.placeholder.Some? {
        reply := Queue(args);
      } else {
        if collect.Some? {
          collect := Some(collect.value.(invoked := true));
        }
        reply := RoundTrip(key);
      }
    }

    method BeginCollect()
      modifies this
      ensures State() == Batching.BeginCollect(old(State()))
    {
      prefetched := map[];
      if batch.Some? {
        collect := Some(NEW_COLLECT);
      }
    }

    method EndCollect() returns (invoked: Result<bool, Fault>)
      modifies this, calls
      ensures (invoked, State()) == Batching.EndCollect(link, old(State()))
      ensures Counted()
    {
      var fault := Flush();
      var called := collect.Some? && collect.value.invoked;
      collect := None;
      invoked := if fault.Some? then Failure(fault.value) else Success(called);
    }

    method Clear()
      modifies this
      ensures State() == Batching.Clear(old(State()))
    {
      collect := None;
      prefetched := map[];
    }
  }

  ghost function States(ws: seq<Worker>): (states: seq<WorkerState>)
    reads ws
    ensures |states| == |ws|
    ensures forall i | 0 <= i < |ws| :: states[i] == ws[i].State()
  {
    if ws == [] then [] else States(ws[..|ws| - 1]) + [ws[|ws| - 1].State()]
  }

  function Links(ws: seq<Worker>): (links: seq<Link>)
    ensures |links| == |ws|
    ensures forall i | 0 <= i < |ws| :: links[i] == ws[i].link
  {
    seq(|ws|, i requires 0 <= i < |ws| => ws[i].link)
  }

  /** The registered functions: distinct workers sharing one reporter. */
  ghost predicate Team(ws: seq<Worker>, calls: CallReporter) {
    && (forall i, j | 0 <= i < j < |ws| :: ws[i] != ws[j])
    && (forall i | 0 <= i < |ws| :: ws[i].calls == calls)
  }

  /** One of a worker's two counts. */
  datatype Tally = Recorded | Hit
  {
    function Of(w: WorkerState): nat { if Recorded? then w.recorded else w.hits }
  }

  /** What the current query's workers have added to one of the reporter's counts. */
  ghost function Total(states: seq<WorkerState>, tally: Tally): nat {
    if states == [] then 0 else tally.Of(states[0]) + Total(states[1..], tally)
  }

  lemma {:induction false} TotalMoves(states: seq<WorkerState>, k: nat, w: WorkerState, tally: Tally)
    requires k < |states|
    ensures Total(states[k := w], tally) + tally.Of(states[k]) == Total(states, tally) + tally.Of(w)
  {
    if k == 0 {
      assert states[k := w][1..] == states[1..];
    } else {
      assert states[k := w][1..] == states[1..][k - 1 := w];
      TotalMoves(states[1..], k - 1, w, tally);
    }
  }

  lemma {:induction false} TotalsMove(states: seq<WorkerState>, k: nat, w: WorkerState)
    requires k < |states|
    ensures Total(states[k := w], Recorded) + states[k].recorded == Total(states, Recorded) + w.recorded
    ensures Total(states[k := w], Hit) + states[k].hits == Total(states, Hit) + w.hits
  {
    TotalMoves(states, k, w, Recorded);
    TotalMoves(states, k, w, Hit);
  }

  lemma {:induction false} TotalAgrees(a: seq<WorkerState>, b: seq<WorkerState>, tally: Tally)
    requires |a| == |b|
    requires forall i | 0 <= i < |a| :: tally.Of(a[i]) == tally.Of(b[i])
    ensures Total(a, tally) == Total(b, tally)
  {
    if a != [] {
      TotalAgrees(a[1..], b[1..], tally);
    }
  }

  lemma {:induction false} TotalsAgree(a: seq<WorkerState>, b: seq<WorkerState>)
    requires |a| == |b|
    requires forall i | 0 <= i < |a| :: a[i].recorded == b[i].recorded && a[i].hits == b[i].hits
    ensures Total(a, Recorded) == Total(b, Recorded) && Total(a, Hit) == Total(b, Hit)
  {
    TotalAgrees(a, b, Recorded);
    TotalAgrees(a, b, Hit);
  }

  lemma {:induction false} TotalZero(a: seq<WorkerState>, tally: Tally)
    requires forall i | 0 <= i < |a| :: tally.Of(a[i]) == 0
    ensures Total(a, tally) == 0
  {
    if a != [] {
      TotalZero(a[1..], tally);
    }
  }

  /** The reporter shows exactly what this query's calls added to it. */
  ghost predicate Tallied(ws: seq<Worker>, calls: CallReporter)
    reads ws, calls
  {
    calls.count == Total(States(ws), Recorded) && calls.cached == Total(States(ws), Hit)
  }

  method CallOne(ws: seq<Worker>, k: nat, args: seq<Value>, calls: CallReporter) returns (reply: CallResult)
    requires Team(ws, calls) && Tallied(ws, calls) && k < |ws|
    modifies ws, calls
    ensures var (r, w) := Batching.Call(Links(ws)[k], old(States(ws))[k], args);
      reply == r && States(ws) == old(States(ws))[k := w]
    ensures Tallied(ws, calls)
  {
    ghost var before := States(ws);
    reply := ws[k].Call(args);
    assert States(ws) == before[k := ws[k].State()];
    TotalsMove(before, k, ws[k].State());
  }

  method RunStatement<R>(st: Statement<R>, ws: seq<Worker>, calls: CallReporter) returns (result: Result<R, Fault>)
    requires Team(ws, calls) && Tallied(ws, calls) && Runs(st, |ws|)
    modifies ws, calls
    ensures (result, States(ws)) == Run(st, [], Links(ws), old(States(ws)))
    ensures Tallied(ws, calls)
  {
    var history: seq<Value> := [];
    while true
      invariant Run(st, history, Links(ws), States(ws)) == Run(st, [], Links(ws), old(States(ws)))
      invariant Tallied(ws, calls)
      decreases st.rank(history)
    {
      match st.step(history) {
        case Return(r) => return Success(r);
        case Invoke(k, args) =>
          var reply := CallOne(ws, k, args, calls);
          if reply.Failure? {
            return Failure(reply.error);
          }
          history := history + [reply.value.value];
      }
    }
  }

  /** A team turned from `was` to `will`, as far as worker `i`. */
  ghost function Turning(was: seq<WorkerState>, will: seq<WorkerState>, i: nat): seq<WorkerState>
    requires |was| == |will| && i <= |was|
  {
    seq(|was|, j requires 0 <= j < |was| => if j < i then will[j] else was[j])
  }

  lemma {:induction false} Turns(was: seq<WorkerState>, will: seq<WorkerState>, i: nat)
    requires |was| == |will| && i < |was|
    ensures Turning(was, will, i)[i := will[i]] == Turning(was, will, i + 1)
    ensures Turning(was, will, i)[i] == was[i]
  {
  }

  lemma {:induction false} Turned(was: seq<WorkerState>, will: seq<WorkerState>)
    requires |was| == |will|
    ensures Turning(was, will, 0) == was && Turning(was, will, |was|) == will
  {
  }

  method BeginOne(ws: seq<Worker>, i: nat, calls: CallReporter)
    requires Team(ws, calls) && i < |ws|
    modifies ws
    ensures States(ws) ==
      var was := old(States(ws)); was[i := if was[i].batch.Some? then Batching.BeginCollect(was[i]) else was[i]]
  {
    ghost var was := States(ws);
    if ws[i].batch.Some? {
      ws[i].BeginCollect();
    }
    assert States(ws) == was[i := ws[i].State()];
  }

  lemma {:induction false} BeginKeepsTotals(ws: seq<WorkerState>)
    ensures Total(BeginAll(ws), Recorded) == Total(ws, Recorded) && Total(BeginAll(ws), Hit) == Total(ws, Hit)
  {
    TotalsAgree(BeginAll(ws), ws);
  }

  lemma {:induction false} ClearKeepsTotals(ws: seq<WorkerState>)
    ensures Total(ClearAll(ws), Recorded) == Total(ws, Recorded) && Total(ClearAll(ws), Hit) == Total(ws, Hit)
  {
    TotalsAgree(ClearAll(ws), ws);
  }

  /** Every collect pass opened. */
  method BeginEach(ws: seq<Worker>, calls: CallReporter)
    requires Team(ws, calls) && Tallied(ws, calls)
    modifies ws
    ensures States(ws) == BeginAll(old(States(ws)))
    ensures Tallied(ws, calls)
  {
    ghost var was, will := States(ws), BeginAll(States(ws));
    Turned(was, will);
    for i := 0 to |ws|
      invariant States(ws) == Turning(was, will, i)
    {
      Turns(was, will, i);
      BeginOne(ws, i, calls);
    }
    BeginKeepsTotals(was);
  }

  method ClearOne(ws: seq<Worker>, i: nat, calls: CallReporter)
    requires Team(ws, calls) && i < |ws|
    modifies ws
    ensures States(ws) == var was := old(States(ws));
      was[i := if was[i].batch.Some? then Batching.Clear(was[i]) else was[i]]
  {
    ghost var was := States(ws);
    if ws[i].batch.Some? {
      ws[i].Clear();
    }
    assert States(ws) == was[i := ws[i].State()];
  }

  /** Every gathered reply dropped, however the query left. */
  method ClearEach(ws: seq<Worker>, calls: CallReporter)
    requires Team(ws, calls) && Tallied(ws, calls)
    modifies ws
    ensures States(ws) == ClearAll(old(States(ws)))
    ensures Tallied(ws, calls)
  {
    ghost var was, will := States(ws), ClearAll(States(ws));
    Turned(was, will);
    for i := 0 to |ws|
      invariant States(ws) == Turning(was, will, i)
    {
      Turns(was, will, i);
      ClearOne(ws, i, calls);
    }
    ClearKeepsTotals(was);
  }

  method EndOne(ws: seq<Worker>, i: nat, calls: CallReporter) returns (invoked: Result<bool, Fault>)
    requires Team(ws, calls) && Tallied(ws, calls) && i < |ws|
    modifies ws, calls
    ensures var (r, w) := Batching.EndCollect(ws[i].link, old(ws[i].State()));
      invoked == r && States(ws) == old(States(ws))[i := w]
    ensures Tallied(ws, calls)
  {
    ghost var before := States(ws);
    invoked := ws[i].EndCollect();
    assert States(ws) == before[i := ws[i].State()];
    TotalsMove(before, i, ws[i].State());
  }

  /** How closing the passes from worker `i` on begins. */
  lemma {:induction false} EndUnfolds(links: seq<Link>, ws: seq<WorkerState>, i: nat, any: bool)
    requires |links| == |ws| && i < |ws|
    ensures ws[i].batch.None? ==> EndFrom(links, ws, i, any) == EndFrom(links, ws, i + 1, any)
    ensures ws[i].batch.Some? ==> var (r, w) := Batching.EndCollect(links[i], ws[i]);
      EndFrom(links, ws, i, any) ==
        if r.Failure? then (Failure(r.error), ws[i := w]) else EndFrom(links, ws[i := w], i + 1, any || r.value)
  {
  }

  /** The pass of worker `i` closed, if it is in one. */
  method EndNext(ws: seq<Worker>, i: nat, any: bool, calls: CallReporter) returns (called: Result<bool, Fault>)
    requires Team(ws, calls) && Tallied(ws, calls) && i < |ws|
    modifies ws, calls
    ensures EndFrom(Links(ws), old(States(ws)), i, any) ==
      if called.Failure? then (called, States(ws)) else EndFrom(Links(ws), States(ws), i + 1, called.value)
    ensures Tallied(ws, calls)
  {
    EndUnfolds(Links(ws), States(ws), i, any);
    called := Success(any);
    if ws[i].batch.Some? {
      called := EndOne(ws, i, calls);
      if called.Success? {
        called := Success(any || called.value);
      }
    }
  }

  /** Every collect pass closed, up to the first that fails. */
  method EndEach(ws: seq<Worker>, calls: CallReporter) returns (invoked: Result<bool, Fault>)
    requires Team(ws, calls) && Tallied(ws, calls)
    modifies ws, calls
    ensures (invoked, States(ws)) == EndFrom(Links(ws), old(States(ws)), 0, false)
    ensures Tallied(ws, calls)
  {
    invoked := Success(false);
    ghost var end := EndFrom(Links(ws), States(ws), 0, false);
    var i := 0;
    while i < |ws| && invoked.Success?
      invariant i <= |ws| && Tallied(ws, calls)
      invariant end ==
        if invoked.Failure? then (invoked, States(ws)) else EndFrom(Links(ws), States(ws), i, invoked.value)
    {
      invoked := EndNext(ws, i, invoked.value, calls);
      i := i + 1;
    }
  }

  predicate Plain(ws: seq<Worker>)
    reads ws
  {
    forall i | 0 <= i < |ws| :: ws[i].batch.None?
  }

  lemma {:induction false} PlainHasNoBatches(ws: seq<Worker>)
    ensures Plain(ws) == !AnyBatches(States(ws))
  {
    var states := States(ws);
    if i :| 0 <= i < |ws| && ws[i].batch.Some? {
      assert states[i] == ws[i].State();
    }
  }

  /** Run a statement: once when nothing batches, else once to collect and,
      if a batching function was called, once more from the replies. */
  method QueryOrderedWith<R>(st: Statement<R>, ws: seq<Worker>, calls: CallReporter) returns (result: Result<R, Fault>)
    requires Team(ws, calls) && Runs(st, |ws|)
    modifies ws, calls
    ensures (result, States(ws)) == Query(st, Links(ws), old(States(ws)))
    ensures Tallied(ws, calls)
  {
    PlainHasNoBatches(ws);
    var plain := Plain(ws);
    QueryUnfolds(st, Links(ws), States(ws));
    OpenQuery(ws, calls);
    if plain {
      result := RunStatement(st, ws, calls);
    } else {
      result := QueryTwice(st, ws, calls);
    }
  }

  lemma {:induction false} QueryUnfolds<R>(st: Statement<R>, links: seq<Link>, ws: seq<WorkerState>)
    requires Runs(st, |ws|) && |links| == |ws|
    ensures AnyBatches(ws) ==> Query(st, links, ws) == CollectThenRun(st, links, OpenPhase(ws))
    ensures !AnyBatches(ws) ==> Query(st, links, ws) == Run(st, [], links, OpenPhase(ws))
  {
  }

  /** A query starts by zeroing the reporter's counts. */
  method OpenQuery(ws: seq<Worker>, calls: CallReporter)
    requires Team(ws, calls)
    modifies ws, calls
    ensures States(ws) == OpenPhase(old(States(ws)))
    ensures Tallied(ws, calls)
  {
    calls.Phase();
    OpenLogs(ws, calls);
  }

  /** The query as its callers use it. */
  method QueryOrdered<R>(st: Statement<R>, ws: seq<Worker>, calls: CallReporter) returns (result: Result<R, Fault>)
    requires Team(ws, calls) && Runs(st, |ws|)
    requires Idle(States(ws)) && AllConsistent(Links(ws))
    modifies ws, calls
    ensures AtRest(States(ws)) && Tallied(ws, calls)
    ensures TrueOrDown(result, PlainRun(st, [], Links(ws)), AllReliable(Links(ws)))
    ensures forall fs | AllCompute(Links(ws), fs) ::
      TrueOrDown(result, Evaluate(st, [], fs), AllReliable(Links(ws)))
  {
    forall fs | AllCompute(Links(ws), fs)
      ensures TrueOrDown(Query(st, Links(ws), States(ws)).0, Evaluate(st, [], fs), AllReliable(Links(ws)))
    {
      QueryEvaluates(st, Links(ws), States(ws), fs);
    }
    QueryEndsAtRest(st, Links(ws), States(ws));
    QueryIsPlain(st, Links(ws), States(ws));
    result := QueryOrderedWith(st, ws, calls);
  }

  method QueryTwice<R>(st: Statement<R>, ws: seq<Worker>, calls: CallReporter) returns (result: Result<R, Fault>)
    requires Team(ws, calls) && Tallied(ws, calls) && Runs(st, |ws|)
    modifies ws, calls
    ensures (result, States(ws)) == CollectThenRun(st, Links(ws), old(States(ws)))
    ensures Tallied(ws, calls)
  {
    BeginEach(ws, calls);
    var collected := RunStatement(st, ws, calls);
    var invoked := EndEach(ws, calls);
    if invoked.Failure? {
      result := Failure(invoked.error);
    } else if !invoked.value {
      result := collected;
    } else {
      result := RunStatement(st, ws, calls);
    }
    ClearEach(ws, calls);
  }

  ghost method OpenLogs(ws: seq<Worker>, calls: CallReporter)
    requires Team(ws, calls) && calls.count == 0 && calls.cached == 0
    modifies ws
    ensures States(ws) == OpenPhase(old(States(ws)))
    ensures Tallied(ws, calls)
  {
    ghost var start := States(ws);
    for i := 0 to |ws|
      invariant forall j | 0 <= j < i :: ws[j].State() == OpenPhase(start)[j]
      invariant forall j | i <= j < |ws| :: ws[j].State() == start[j]
    {
      ws[i].wire, ws[i].recorded, ws[i].hits := [], 0, 0;
    }
    TotalZero(States(ws), Recorded);
    TotalZero(States(ws), Hit);
  }
}
