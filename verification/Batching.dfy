/**
 Worker-backed SQL functions and the collect pass that batches their calls
 (functions.rs), with the query that runs a statement twice around it (db.rs).

 A statement is what the engine does next after each history of replies; a
 worker process is a function from request lines to response lines; the link to
 it decides, exchange by exchange, whether the transport holds.
 */
module Batching {
  import opened Wrappers
  import opened Values

  // ---------------------------------------------------------------- protocol

  /** The wire encoding of one argument. */
  datatype Json = JNull | JInt(n: int) | JReal(x: real) | JText(text: string) | JBytes(bytes: seq<byte>)

  /** One call's argument list as it is spelled on the wire. */
  type Line = seq<Json>

  function EncodeValue(v: Value): Json {
    match v
    case Null => JNull
    case Integer(n) => JInt(n)
    case Real(x) => JReal(x)
    case Infinity(_) => JNull
    case Text(t) => JText(t)
    case Blob(b) => JBytes(b)
  }

  function RequestLine(args: seq<Value>): Line {
    seq(|args|, i requires 0 <= i < |args| => EncodeValue(args[i]))
  }

  function RequestLines(calls: seq<seq<Value>>): seq<Line> {
    seq(|calls|, i requires 0 <= i < |calls| => RequestLine(calls[i]))
  }

  datatype Request = Single(line: Line) | Batched(lines: seq<Line>)

  /** One single-call response, as far as its JSON could be read. */
  datatype Entry = Answer(value: Value, cached: bool) | Refusal(message: string) | Malformed(defect: string)

  /** One batched response. */
  datatype BatchLine = Results(entries: seq<Entry>) | RefusesAll(message: string) | Unreadable(defect: string)

  datatype Defect =
    Unparsed(defect: string) | WrongCount(expected: nat, got: nat) | BadResult(index: nat, defect: string)

  datatype Reply = Reply(value: Value, cached: bool)

  /** Why a call failed: the worker said so, it spoke nonsense, or the transport broke. */
  datatype Fault =
    | Refused(message: string)
    | InvalidResponse(defect: string)
    | InvalidBatch(why: Defect)
    | NotStarted
    | NotAccepting
    | TimedOut(calls: nat)
    | ExitedEarly
  {
    predicate FromTransport() { NotStarted? || NotAccepting? || TimedOut? || ExitedEarly? }
  }

  type CallResult = Result<Reply, Fault>

  function Decode(e: Entry): CallResult {
    match e
    case Answer(v, c) => Success(Reply(v, c))
    case Refusal(m) => Failure(Refused(m))
    case Malformed(d) => Failure(InvalidResponse(d))
  }

  /** The position of the first entry that could not be read, or the length. */
  function FirstMalformed(entries: seq<Entry>): (i: nat)
    ensures i <= |entries|
    ensures forall k :: 0 <= k < i ==> !entries[k].Malformed?
    ensures i < |entries| ==> entries[i].Malformed?
  {
    if entries == [] then 0
    else if entries[0].Malformed? then 0
    else 1 + FirstMalformed(entries[1..])
  }

  function ParseBatched(line: BatchLine, expected: nat): (r: Result<seq<CallResult>, Defect>)
    ensures r.Success? ==> |r.value| == expected
    ensures line.RefusesAll? ==>
      r.Success? && forall i | 0 <= i < expected :: r.value[i] == Failure(Refused(line.message))
    ensures line.Results? && r.Success? ==>
      |line.entries| == expected && forall i | 0 <= i < expected ::
        !line.entries[i].Malformed? && r.value[i] == Decode(line.entries[i])
    ensures r.Failure? <==>
      line.Unreadable? ||
        (line.Results? && (|line.entries| != expected || exists i | 0 <= i < expected :: line.entries[i].Malformed?))
    ensures r.Failure? && r.error.BadResult? ==>
      && line.Results? && r.error.index < |line.entries| == expected
      && line.entries[r.error.index] == Malformed(r.error.defect)
      && forall i | 0 <= i < r.error.index :: !line.entries[i].Malformed?
  {
    match line
    case RefusesAll(m) => Success(seq(expected, _ => Failure(Refused(m))))
    case Unreadable(d) => Failure(Unparsed(d))
    case Results(entries) =>
      if |entries| != expected then Failure(WrongCount(expected, |entries|))
      else
        var bad := FirstMalformed(entries);
        if bad < |entries| then Failure(BadResult(bad, entries[bad].defect))
        else Success(seq(expected, i requires 0 <= i < expected => Decode(entries[i])))
  }

  /** What a batched response means for each call of its request: a response
      that cannot be read fails every one of them. */
  function BatchReplies(line: BatchLine, expected: nat): (r: seq<CallResult>)
    ensures |r| == expected
  {
    match ParseBatched(line, expected)
    case Success(replies) => replies
    case Failure(d) => seq(expected, _ => Failure(InvalidBatch(d)))
  }

  /** A worker process: its response to a single call and to a batch. */
  datatype Process = Process(one: Line -> Entry, many: seq<Line> -> BatchLine)

  datatype Delivery = Delivered | LateReply | NoReply

  /** What becomes of one exchange. */
  datatype Fate = Fate(starts: bool, accepts: bool, delivery: Delivery)

  datatype Link = Link(process: Process, fate: nat -> Fate)

  ghost predicate Reliable(link: Link) {
    forall n: nat :: link.fate(n) == Fate(true, true, Delivered)
  }

  /** What the caller sees of a reply: whether it was cached is only counted. */
  function Seen(r: CallResult): Result<Value, Fault> {
    match r
    case Success(reply) => Success(reply.value)
    case Failure(e) => Failure(e)
  }

  function Truth(p: Process, line: Line): CallResult { Decode(p.one(line)) }

  /** A worker that answers a call the same whether it comes alone or in a batch. */
  ghost predicate Consistent(p: Process) {
    forall lines: seq<Line>, i: nat | i < |lines| ::
      Seen(BatchReplies(p.many(lines), |lines|)[i]) == Seen(Truth(p, lines[i]))
  }

  // ------------------------------------------------------------ worker state

  datatype Collect = Collect(
    invoked: bool,
    placeholder: Option<Value>,
    pending: seq<seq<Value>>,
    queued: set<Line>)

  const NEW_COLLECT := Collect(false, None, [], {})

  /** `wire`, `recorded` and `hits` log what the current query has sent and
      what it added to the shared call counter. */
  datatype WorkerState = WorkerState(
    batch: Option<nat>,
    up: bool,
    attempts: nat,
    collect: Option<Collect>,
    prefetched: map<Line, CallResult>,
    wire: seq<Request>,
    recorded: nat,
    hits: nat)

  /** One transport round trip: start the process if need be, send, wait. A
      worker that failed is started afresh by the next. */
  function Exchange(link: Link, w: WorkerState, request: Request, calls: nat)
    : (out: (Option<Fault>, WorkerState))
    ensures out.1.up <==> out.0.None?
    ensures out.0.None? ==> out.1.wire == w.wire + [request]
  {
    var fate := link.fate(w.attempts);
    var w := w.(attempts := w.attempts + 1);
    if !w.up && !fate.starts then (Some(NotStarted), w)
    else if !fate.accepts then (Some(NotAccepting), w.(up := false))
    else
      var sent := w.(up := true, wire := w.wire + [request]);
      match fate.delivery
      case Delivered => (None, sent)
      case LateReply => (Some(TimedOut(calls)), sent.(up := false))
      case NoReply => (Some(ExitedEarly), sent.(up := false))
  }

  /** Whether the worker says it had the reply cached. */
  predicate FromCache(r: CallResult) { r.Success? && r.value.cached }

  /** How many replies were cached. */
  function Hits(replies: seq<CallResult>): nat {
    if replies == [] then 0
    else (if FromCache(replies[0]) then 1 else 0) + Hits(replies[1..])
  }

  /** `held` with each reply filed under its call's line. */
  function File(held: map<Line, CallResult>, lines: seq<Line>, replies: seq<CallResult>): map<Line, CallResult>
    requires |lines| == |replies|
    decreases lines
  {
    if lines == [] then held
    else File(held[lines[0] := replies[0]], lines[1..], replies[1..])
  }

  /** Send what is queued as one batched request. */
  function Flush(link: Link, w: WorkerState): (Option<Fault>, WorkerState) {
    if w.collect.None? || w.collect.value.pending == [] then (None, w)
    else
      var lines := RequestLines(w.collect.value.pending);
      var emptied := w.(collect := Some(w.collect.value.(pending := [])));
      var (fault, w1) := Exchange(link, emptied, Batched(lines), |lines|);
      if fault.Some? then (fault, w1)
      else
        var replies := BatchReplies(link.process.many(lines), |lines|);
        (None, w1.(prefetched := File(w1.prefetched, lines, replies),
                   recorded := w1.recorded + |lines|,
                   hits := w1.hits + Hits(replies)))
  }

  /** A call answered by a round trip of its own. */
  function CallAlone(link: Link, w: WorkerState, line: Line): (CallResult, WorkerState) {
    var (fault, w1) := Exchange(link, w.(recorded := w.recorded + 1), Single(line), 1);
    var reply: CallResult := if fault.Some? then Failure(fault.value) else Truth(link.process, line);
    var w2 := w1.(hits := w1.hits + Hits([reply]));
    if w2.collect.None? then (reply, w2)
    else
      var c := w2.collect.value;
      var placeholder := if reply.Success? && reply.value.value != Null then Some(reply.value.value) else c.placeholder;
      (reply, w2.(collect := Some(c.(placeholder := placeholder, queued := c.queued + {line})),
                  prefetched := w2.prefetched[line := reply]))
  }

  /** A call answered by the placeholder, its arguments queued. */
  function CallLater(link: Link, w: WorkerState, args: seq<Value>): (CallResult, WorkerState)
    requires w.collect.Some? && w.collect.value.placeholder.Some?
  {
    var line := RequestLine(args);
    var c := w.collect.value.(invoked := true);
    var standIn: CallResult := Success(Reply(c.placeholder.value, false));
    if line in c.queued then (standIn, w.(collect := Some(c)))
    else
      var w1 := w.(collect := Some(c.(queued := c.queued + {line}, pending := c.pending + [args])));
      if w.batch.None? || |c.pending| + 1 >= w.batch.value then
        var (fault, w2) := Flush(link, w1);
        (if fault.Some? then Failure(fault.value) else standIn, w2)
      else (standIn, w1)
  }

  /** Answer one call. */
  function Call(link: Link, w: WorkerState, args: seq<Value>): (CallResult, WorkerState) {
    var line := RequestLine(args);
    if line in w.prefetched then (w.prefetched[line], w)
    else if w.collect.None? then CallAlone(link, w, line)
    else if w.collect.value.placeholder.Some? then CallLater(link, w, args)
    else CallAlone(link, w.(collect := Some(w.collect.value.(invoked := true))), line)
  }

  function BeginCollect(w: WorkerState): WorkerState {
    w.(prefetched := map[], collect := if w.batch.Some? then Some(NEW_COLLECT) else w.collect)
  }

  function EndCollect(link: Link, w: WorkerState): (Result<bool, Fault>, WorkerState) {
    var (fault, w1) := Flush(link, w);
    var invoked := w1.collect.Some? && w1.collect.value.invoked;
    var closed := w1.(collect := None);
    (if fault.Some? then Failure(fault.value) else Success(invoked), closed)
  }

  function Clear(w: WorkerState): WorkerState { w.(collect := None, prefetched := map[]) }

  // --------------------------------------------------------------- statement

  /** What the engine does next: finish, or call function number `worker`. */
  datatype Step<R> = Return(result: R) | Invoke(worker: nat, args: seq<Value>)

  /** A read-only statement over a database that holds still: its next step
      after each history of replies. `rank` bounds how long it can go on. */
  datatype Statement<R> = Statement(step: seq<Value> -> Step<R>, rank: seq<Value> -> ORDINAL)

  /** The statement ends whatever it is answered, and calls only the first
      `functions` functions. */
  ghost predicate Runs<R>(st: Statement<R>, functions: nat) {
    && (forall h: seq<Value> | st.step(h).Invoke? :: st.step(h).worker < functions)
    && (forall h: seq<Value>, v: Value | st.step(h).Invoke? :: st.rank(h + [v]) < st.rank(h))
  }

  /** Run the statement from `history` on: a failed call fails the statement. */
  ghost function Run<R>(st: Statement<R>, history: seq<Value>, links: seq<Link>, ws: seq<WorkerState>)
    : (out: (Result<R, Fault>, seq<WorkerState>))
    requires Runs(st, |ws|) && |links| == |ws|
    ensures |out.1| == |ws|
    decreases st.rank(history)
  {
    match st.step(history)
    case Return(r) => (Success(r), ws)
    case Invoke(k, args) =>
      var (reply, w) := Call(links[k], ws[k], args);
      var ws' := ws[k := w];
      match reply
      case Failure(e) => (Failure(e), ws')
      case Success(r) => Run(st, history + [r.value], links, ws')
  }

  /** The reference: every call makes one round trip, and each arrives. */
  ghost function PlainRun<R>(st: Statement<R>, history: seq<Value>, links: seq<Link>): Result<R, Fault>
    requires Runs(st, |links|)
    decreases st.rank(history)
  {
    match st.step(history)
    case Return(r) => Success(r)
    case Invoke(k, args) =>
      match Seen(Truth(links[k].process, RequestLine(args)))
      case Failure(e) => Failure(e)
      case Success(v) => PlainRun(st, history + [v], links)
  }

  function BeginAll(ws: seq<WorkerState>): seq<WorkerState> {
    seq(|ws|, i requires 0 <= i < |ws| => if ws[i].batch.Some? then BeginCollect(ws[i]) else ws[i])
  }

  /** Close the collect passes from worker `i` on, stopping at the first that fails. */
  function EndFrom(links: seq<Link>, ws: seq<WorkerState>, i: nat, any: bool)
    : (out: (Result<bool, Fault>, seq<WorkerState>))
    requires |links| == |ws| && i <= |ws|
    ensures |out.1| == |ws|
    decreases |ws| - i
  {
    if i == |ws| then (Success(any), ws)
    else if ws[i].batch.None? then EndFrom(links, ws, i + 1, any)
    else
      var (invoked, w) := EndCollect(links[i], ws[i]);
      match invoked
      case Failure(e) => (Failure(e), ws[i := w])
      case Success(called) => EndFrom(links, ws[i := w], i + 1, any || called)
  }

  function ClearAll(ws: seq<WorkerState>): seq<WorkerState> {
    seq(|ws|, i requires 0 <= i < |ws| => if ws[i].batch.Some? then Clear(ws[i]) else ws[i])
  }

  /** The call counter's phase opens at zero. */
  function OpenPhase(ws: seq<WorkerState>): seq<WorkerState> {
    seq(|ws|, i requires 0 <= i < |ws| => ws[i].(wire := [], recorded := 0, hits := 0))
  }

  /** Collect, close the passes, and run for real if a batching function was called. */
  ghost function CollectThenRun<R>(st: Statement<R>, links: seq<Link>, ws: seq<WorkerState>)
    : (out: (Result<R, Fault>, seq<WorkerState>))
    requires Runs(st, |ws|) && |links| == |ws|
    ensures |out.1| == |ws|
  {
    var (collected, ws1) := Run(st, [], links, BeginAll(ws));
    var (invoked, ws2) := EndFrom(links, ws1, 0, false);
    match invoked
    case Failure(e) => (Failure(e), ClearAll(ws2))
    case Success(called) =>
      if !called then (collected, ClearAll(ws2))
      else
        var (rows, ws3) := Run(st, [], links, ws2);
        (rows, ClearAll(ws3))
  }

  predicate AnyBatches(ws: seq<WorkerState>) { exists i | 0 <= i < |ws| :: ws[i].batch.Some? }

  ghost function Query<R>(st: Statement<R>, links: seq<Link>, ws: seq<WorkerState>)
    : (out: (Result<R, Fault>, seq<WorkerState>))
    requires Runs(st, |ws|) && |links| == |ws|
    ensures |out.1| == |ws|
  {
    if AnyBatches(ws) then CollectThenRun(st, links, OpenPhase(ws)) else Run(st, [], links, OpenPhase(ws))
  }

  // ------------------------------------------- the batched query is the plain one

  /** `got` is what a round trip that arrived would have given, or, on a link
      that can fail, a transport failure. */
  ghost predicate TrueOrDown<T>(got: Result<T, Fault>, want: Result<T, Fault>, reliable: bool) {
    got == want || (!reliable && got.Failure? && got.error.FromTransport())
  }

  /** Every reply in hand is the worker's own. */
  ghost predicate Honest(link: Link, w: WorkerState) {
    forall line | line in w.prefetched ::
      TrueOrDown(Seen(w.prefetched[line]), Seen(Truth(link.process, line)), Reliable(link))
  }

  ghost predicate AllHonest(links: seq<Link>, ws: seq<WorkerState>) {
    |links| == |ws| && forall i | 0 <= i < |ws| :: Honest(links[i], ws[i])
  }

  ghost predicate AllConsistent(links: seq<Link>) {
    forall i | 0 <= i < |links| :: Consistent(links[i].process)
  }

  ghost predicate AllReliable(links: seq<Link>) {
    forall i | 0 <= i < |links| :: Reliable(links[i])
  }

  lemma {:induction false} FileIsEntrywise(held: map<Line, CallResult>, lines: seq<Line>, replies: seq<CallResult>,
      line: Line)
    requires |lines| == |replies|
    ensures line in File(held, lines, replies) <==> line in held || line in lines
    ensures line !in lines && line in held ==> File(held, lines, replies)[line] == held[line]
    ensures line in lines ==>
      exists i :: 0 <= i < |lines| && lines[i] == line && File(held, lines, replies)[line] == replies[i]
    decreases lines
  {
    if lines != [] {
      var held' := held[lines[0] := replies[0]];
      FileIsEntrywise(held', lines[1..], replies[1..], line);
      assert lines == [lines[0]] + lines[1..];
      if line in lines[1..] {
        var i :| 0 <= i < |lines[1..]| && lines[1..][i] == line &&
          File(held', lines[1..], replies[1..])[line] == replies[1..][i];
        assert lines[i + 1] == line && File(held, lines, replies)[line] == replies[i + 1];
      } else if line in lines {
        assert lines[0] == line && File(held, lines, replies)[line] == replies[0];
      }
    }
  }

  lemma {:induction false} FlushKeepsHonest(link: Link, w: WorkerState)
    requires Consistent(link.process) && Honest(link, w)
    ensures var (fault, w') := Flush(link, w);
      && Honest(link, w')
      && (fault.Some? ==> !Reliable(link) && fault.value.FromTransport())
  {
    if w.collect.Some? && w.collect.value.pending != [] {
      var (fault, w') := Flush(link, w);
      var lines := RequestLines(w.collect.value.pending);
      var replies := BatchReplies(link.process.many(lines), |lines|);
      if fault.None? {
        forall line | line in w'.prefetched
          ensures TrueOrDown(Seen(w'.prefetched[line]), Seen(Truth(link.process, line)), Reliable(link))
        {
          FileIsEntrywise(w.prefetched, lines, replies, line);
        }
      }
    }
  }

  lemma {:induction false} CallAloneIsHonest(link: Link, w: WorkerState, line: Line)
    requires Honest(link, w)
    ensures var (reply, w') := CallAlone(link, w, line);
      && Honest(link, w')
      && w'.batch == w.batch
      && (w'.collect.None? <==> w.collect.None?)
      && TrueOrDown(Seen(reply), Seen(Truth(link.process, line)), Reliable(link))
      && (w.collect.None? ==> w'.prefetched == w.prefetched)
      && (w.collect.Some? ==> w'.collect.value.invoked == w.collect.value.invoked)
  {
    var (reply, w') := CallAlone(link, w, line);
    var (fault, _) := Exchange(link, w.(recorded := w.recorded + 1), Single(line), 1);
    assert fault.Some? ==> fault.value.FromTransport() && !Reliable(link);
    assert w.collect.Some? ==> w'.prefetched == w.prefetched[line := reply];
  }

  lemma {:induction false} CallLaterIsHonest(link: Link, w: WorkerState, args: seq<Value>)
    requires w.collect.Some? && w.collect.value.placeholder.Some?
    requires Consistent(link.process) && Honest(link, w)
    ensures var (reply, w') := CallLater(link, w, args);
      && Honest(link, w')
      && w'.batch == w.batch
      && w'.collect.Some? && w'.collect.value.invoked
  {
    var line := RequestLine(args);
    var c := w.collect.value.(invoked := true);
    var w1 := w.(collect := Some(c.(queued := c.queued + {line}, pending := c.pending + [args])));
    FlushKeepsHonest(link, w1);
    FlushKeepsInvoked(link, w1);
  }

  /** One call, in or out of a collect pass. */
  lemma {:induction false} CallIsHonest(link: Link, w: WorkerState, args: seq<Value>)
    requires Consistent(link.process) && Honest(link, w)
    ensures var (reply, w') := Call(link, w, args);
      && Honest(link, w')
      && w'.batch == w.batch
      && (w'.collect.None? <==> w.collect.None?)
      && (w.collect.None? ==> w'.prefetched == w.prefetched)
      && (w.collect.None? ==> TrueOrDown(Seen(reply), Seen(Truth(link.process, RequestLine(args))), Reliable(link)))
      && (w.collect.Some? && (w.prefetched == map[] || w.collect.value.invoked) ==> w'.collect.value.invoked)
  {
    var line := RequestLine(args);
    if line in w.prefetched {
    } else if w.collect.None? {
      CallAloneIsHonest(link, w, line);
    } else if w.collect.value.placeholder.Some? {
      CallLaterIsHonest(link, w, args);
    } else {
      CallAloneIsHonest(link, w.(collect := Some(w.collect.value.(invoked := true))), line);
    }
  }

  /** A worker whose open pass has not been called holds no reply yet. */
  predicate Fresh(w: WorkerState) {
    w.collect.Some? && !w.collect.value.invoked ==> w.prefetched == map[]
  }

  predicate AnyInvoked(ws: seq<WorkerState>) { AnyInvokedFrom(ws, 0) }

  predicate SameShape(before: seq<WorkerState>, after: seq<WorkerState>) {
    && |before| == |after|
    && forall i | 0 <= i < |before| ::
      && after[i].batch == before[i].batch
      && (after[i].collect.None? <==> before[i].collect.None?)
  }

  ghost predicate AllFresh(ws: seq<WorkerState>) { forall i | 0 <= i < |ws| :: Fresh(ws[i]) }

  lemma {:induction false} ReplacedIsHonest(links: seq<Link>, ws: seq<WorkerState>, k: nat, w: WorkerState)
    requires AllHonest(links, ws) && k < |ws| && Honest(links[k], w)
    ensures AllHonest(links, ws[k := w])
  {
  }

  lemma {:induction false} InvokedStays(ws: seq<WorkerState>, k: nat, w: WorkerState)
    requires k < |ws| && (ws[k].collect.Some? ==> w.collect.Some? && w.collect.value.invoked)
    ensures AnyInvoked(ws) || ws[k].collect.Some? ==> AnyInvoked(ws[k := w])
  {
    var ws1 := ws[k := w];
    if AnyInvoked(ws) {
      var i :| 0 <= i < |ws| && ws[i].collect.Some? && ws[i].collect.value.invoked;
      assert ws1[i].collect.Some? && ws1[i].collect.value.invoked;
    }
    assert ws1[k] == w;
  }

  /** One call among many workers. */
  lemma {:induction false} StepIsHonest(links: seq<Link>, ws: seq<WorkerState>, k: nat, args: seq<Value>)
    requires AllConsistent(links) && AllHonest(links, ws) && AllFresh(ws) && k < |ws|
    ensures var (reply, w) := Call(links[k], ws[k], args);
      var ws1 := ws[k := w];
      && AllHonest(links, ws1) && SameShape(ws, ws1) && AllFresh(ws1)
      && (AnyInvoked(ws) || ws[k].collect.Some? ==> AnyInvoked(ws1))
      && (ws[k].collect.None? ==>
        TrueOrDown(Seen(reply), Seen(Truth(links[k].process, RequestLine(args))), AllReliable(links)))
  {
    CallIsHonest(links[k], ws[k], args);
    var w := Call(links[k], ws[k], args).1;
    ReplacedIsHonest(links, ws, k, w);
    InvokedStays(ws, k, w);
  }

  lemma {:induction false} SameShapeOn(a: seq<WorkerState>, b: seq<WorkerState>, c: seq<WorkerState>)
    requires SameShape(a, b) && SameShape(b, c)
    ensures SameShape(a, c)
  {
  }

  /** A run in which no open pass was called gave the plain result, or a
      transport failure; any other run is marked as having called one. */
  lemma {:induction false} RunIsPlain<R>(st: Statement<R>, h: seq<Value>, links: seq<Link>, ws: seq<WorkerState>)
    requires Runs(st, |ws|) && |links| == |ws|
    requires AllConsistent(links) && AllHonest(links, ws) && AllFresh(ws)
    ensures var (result, ws') := Run(st, h, links, ws);
      && AllHonest(links, ws')
      && SameShape(ws, ws')
      && (AnyInvoked(ws) ==> AnyInvoked(ws'))
      && (!AnyInvoked(ws') ==> TrueOrDown(result, PlainRun(st, h, links), AllReliable(links)))
    decreases st.rank(h)
  {
    match st.step(h)
    case Return(r) =>
    case Invoke(k, args) =>
      StepIsHonest(links, ws, k, args);
      var (reply, w) := Call(links[k], ws[k], args);
      if reply.Success? {
        RunIsPlain(st, h + [reply.value.value], links, ws[k := w]);
        SameShapeOn(ws, ws[k := w], Run(st, h, links, ws).1);
      }
  }

  lemma {:induction false} FlushKeepsInvoked(link: Link, w: WorkerState)
    ensures var (_, w') := Flush(link, w);
      && w'.batch == w.batch
      && w'.collect.None? == w.collect.None?
      && (w.collect.Some? ==> w'.collect.value.invoked == w.collect.value.invoked)
  {
  }

  predicate AnyInvokedFrom(ws: seq<WorkerState>, from: nat) {
    exists i | from <= i < |ws| :: ws[i].collect.Some? && ws[i].collect.value.invoked
  }

  lemma {:induction false} EndCollectIsHonest(link: Link, w: WorkerState)
    requires Consistent(link.process) && Honest(link, w)
    ensures var (invoked, w') := EndCollect(link, w);
      && Honest(link, w')
      && w'.collect.None?
      && (invoked.Failure? ==> invoked.error.FromTransport() && !Reliable(link))
      && (invoked.Success? ==> invoked.value == (w.collect.Some? && w.collect.value.invoked))
  {
    FlushKeepsHonest(link, w);
    FlushKeepsInvoked(link, w);
  }

  lemma {:induction false} EndFromIsHonest(links: seq<Link>, ws: seq<WorkerState>, i: nat, any: bool)
    requires AllConsistent(links) && AllHonest(links, ws) && i <= |ws|
    requires forall j | 0 <= j < |ws| :: (j < i || ws[j].batch.None?) ==> ws[j].collect.None?
    ensures var (invoked, ws') := EndFrom(links, ws, i, any);
      && AllHonest(links, ws')
      && (invoked.Failure? ==> invoked.error.FromTransport() && !AllReliable(links))
      && (invoked.Success? ==> invoked.value == (any || AnyInvokedFrom(ws, i)))
      && (invoked.Success? ==> forall j | 0 <= j < |ws| :: ws'[j].collect.None?)
    decreases |ws| - i
  {
    if i < |ws| {
      InvokedHereOrLater(ws, i);
      if ws[i].batch.None? {
        EndFromIsHonest(links, ws, i + 1, any);
      } else {
        EndCollectIsHonest(links[i], ws[i]);
        var (invoked, w) := EndCollect(links[i], ws[i]);
        ReplacedIsHonest(links, ws, i, w);
        if invoked.Success? {
          InvokedLater(ws, i, w);
          EndFromIsHonest(links, ws[i := w], i + 1, any || invoked.value);
        }
      }
    }
  }

  lemma {:induction false} InvokedHereOrLater(ws: seq<WorkerState>, i: nat)
    requires i < |ws|
    ensures AnyInvokedFrom(ws, i) <==> (ws[i].collect.Some? && ws[i].collect.value.invoked) || AnyInvokedFrom(ws, i + 1)
  {
  }

  lemma {:induction false} InvokedLater(ws: seq<WorkerState>, i: nat, w: WorkerState)
    requires i < |ws|
    ensures AnyInvokedFrom(ws[i := w], i + 1) <==> AnyInvokedFrom(ws, i + 1)
  {
    assert forall j | i < j < |ws| :: ws[i := w][j] == ws[j];
  }

  /** Between queries only a batching worker may hold anything of a pass. */
  predicate Idle(ws: seq<WorkerState>) {
    forall i | 0 <= i < |ws| && ws[i].batch.None? :: ws[i].collect.None? && ws[i].prefetched == map[]
  }

  /**
   The main theorem. For every statement and every worker that answers a call
   the same alone or in a batch, the query gives the result of one plain run
   with a round trip per call, wherever the placeholder sent the collect pass.
   When the transport can fail it gives that result or the transport's failure,
   never rows computed from a stand-in.
   */
  lemma {:induction false} QueryIsPlain<R>(st: Statement<R>, links: seq<Link>, ws: seq<WorkerState>)
    requires Runs(st, |ws|) && |links| == |ws|
    requires AllConsistent(links) && Idle(ws)
    ensures TrueOrDown(Query(st, links, ws).0, PlainRun(st, [], links), AllReliable(links))
  {
    var ws0 := OpenPhase(ws);
    if !AnyBatches(ws) {
      RunIsPlain(st, [], links, ws0);
    } else {
      var begun := BeginAll(ws0);
      RunIsPlain(st, [], links, begun);
      var (collected, ws1) := Run(st, [], links, begun);
      EndFromIsHonest(links, ws1, 0, false);
      var (invoked, ws2) := EndFrom(links, ws1, 0, false);
      if invoked.Success? && invoked.value {
        RunIsPlain(st, [], links, ws2);
      }
    }
  }

  lemma {:induction false} CallKeepsIdle(link: Link, w: WorkerState, args: seq<Value>)
    ensures var w' := Call(link, w, args).1;
      && w'.batch == w.batch
      && (w.batch.None? && w.collect.None? && w.prefetched == map[] ==> w'.collect.None? && w'.prefetched == map[])
  {
  }

  lemma {:induction false} RunKeepsIdle<R>(st: Statement<R>, h: seq<Value>, links: seq<Link>, ws: seq<WorkerState>)
    requires Runs(st, |ws|) && |links| == |ws| && Idle(ws)
    ensures Idle(Run(st, h, links, ws).1)
    decreases st.rank(h)
  {
    match st.step(h)
    case Return(r) =>
    case Invoke(k, args) =>
      CallKeepsIdle(links[k], ws[k], args);
      var (reply, w) := Call(links[k], ws[k], args);
      if reply.Success? {
        RunKeepsIdle(st, h + [reply.value.value], links, ws[k := w]);
      }
  }

  lemma {:induction false} EndFromKeepsIdle(links: seq<Link>, ws: seq<WorkerState>, i: nat, any: bool)
    requires |links| == |ws| && i <= |ws| && Idle(ws)
    ensures Idle(EndFrom(links, ws, i, any).1)
    decreases |ws| - i
  {
    if i < |ws| {
      if ws[i].batch.None? {
        EndFromKeepsIdle(links, ws, i + 1, any);
      } else {
        FlushKeepsInvoked(links[i], ws[i]);
        var (invoked, w) := EndCollect(links[i], ws[i]);
        if invoked.Success? {
          EndFromKeepsIdle(links, ws[i := w], i + 1, any || invoked.value);
        }
      }
    }
  }

  /** No worker, batching or not, holds a pass or a reply. */
  predicate AtRest(ws: seq<WorkerState>) {
    forall i | 0 <= i < |ws| :: ws[i].collect.None? && ws[i].prefetched == map[]
  }

  lemma {:induction false} ClearedAtRest(ws: seq<WorkerState>)
    requires Idle(ws)
    ensures AtRest(ClearAll(ws))
  {
  }

  lemma {:induction false} UnbatchedStay<R>(st: Statement<R>, links: seq<Link>, ws: seq<WorkerState>)
    requires Runs(st, |ws|) && |links| == |ws| && Idle(ws) && !AnyBatches(ws)
    ensures AtRest(Run(st, [], links, ws).1)
  {
    var ws' := Run(st, [], links, ws).1;
    RunKeepsIdle(st, [], links, ws);
    forall i | 0 <= i < |ws| ensures ws'[i].collect.None? && ws'[i].prefetched == map[] {
      RunKeepsBatch(st, [], links, ws, i);
      assert ws[i].batch.None?;
    }
  }

  lemma {:induction false} PassKeepsIdle<R>(st: Statement<R>, links: seq<Link>, ws: seq<WorkerState>)
    requires Runs(st, |ws|) && |links| == |ws| && Idle(ws)
    ensures AtRest(CollectThenRun(st, links, ws).1)
  {
    var begun := BeginAll(ws);
    RunKeepsIdle(st, [], links, begun);
    var ws1 := Run(st, [], links, begun).1;
    EndFromKeepsIdle(links, ws1, 0, false);
    var ws2 := EndFrom(links, ws1, 0, false).1;
    RunKeepsIdle(st, [], links, ws2);
    ClearedAtRest(ws2);
    ClearedAtRest(Run(st, [], links, ws2).1);
  }

  /** A query, however it ends, leaves no pass open and no reply behind on any
      worker, so the theorem above holds of every query of a connection. */
  lemma {:induction false} QueryEndsAtRest<R>(st: Statement<R>, links: seq<Link>, ws: seq<WorkerState>)
    requires Runs(st, |ws|) && |links| == |ws| && Idle(ws)
    ensures AtRest(Query(st, links, ws).1)
  {
    var ws0 := OpenPhase(ws);
    if AnyBatches(ws) {
      PassKeepsIdle(st, links, ws0);
    } else {
      assert forall i | 0 <= i < |ws0| :: ws0[i].batch == ws[i].batch;
      UnbatchedStay(st, links, ws0);
    }
  }

  // ------------------------------------------------ what a collect pass sends

  function Calls(r: Request): seq<Line> {
    match r
    case Single(line) => [line]
    case Batched(lines) => lines
  }

  /** Every call put on the wire, in order. */
  function Sent(wire: seq<Request>): seq<Line> {
    if wire == [] then [] else Sent(wire[..|wire| - 1]) + Calls(wire[|wire| - 1])
  }

  ghost predicate Distinct<T(!new)>(s: seq<T>) {
    forall i, j | 0 <= i < j < |s| :: s[i] != s[j]
  }

  ghost function Elements<T(!new)>(s: seq<T>): set<T> { set x | x in s }

  /** The calls waiting for a batched request, as lines. */
  function Waiting(w: WorkerState): seq<Line>
    requires w.collect.Some?
  {
    RequestLines(w.collect.value.pending)
  }

  /**
   What holds throughout a collect pass on a transport that holds: the queued
   lines are the disjoint union of the answered and the waiting ones, no line is
   sent twice, fewer than a batch wait, every batched request is exactly full,
   every reply in hand is the worker's own, and the count is the calls sent.
   */
  ghost predicate Collecting(link: Link, w: WorkerState) {
    && w.batch.Some? && w.batch.value >= 1 && w.collect.Some?
    && Accounted(w)
    && |Waiting(w)| < w.batch.value
    && (forall k | 0 <= k < |w.wire| && w.wire[k].Batched? :: |w.wire[k].lines| == w.batch.value)
    && Honest(link, w)
  }

  ghost predicate Accounted(w: WorkerState)
    requires w.collect.Some?
  {
    && w.collect.value.queued == w.prefetched.Keys + Elements(Waiting(w))
    && w.prefetched.Keys !! Elements(Waiting(w))
    && Distinct(Waiting(w))
    && Distinct(Sent(w.wire))
    && Elements(Sent(w.wire)) == w.prefetched.Keys
    && w.recorded == |Sent(w.wire)|
  }

  lemma {:induction false} SentGrows(wire: seq<Request>, r: Request)
    ensures Sent(wire + [r]) == Sent(wire) + Calls(r)
  {
    assert (wire + [r])[..|wire|] == wire;
  }

  lemma {:induction false} DistinctConcat<T(!new)>(a: seq<T>, b: seq<T>)
    requires Distinct(a) && Distinct(b) && Elements(a) !! Elements(b)
    ensures Distinct(a + b)
  {
    forall i, j | 0 <= i < j < |a + b|
      ensures (a + b)[i] != (a + b)[j]
    {
      if i < |a| <= j {
        assert a[i] in Elements(a) && b[j - |a|] in Elements(b);
      }
    }
  }

  lemma {:induction false} RequestLinesGrow(pending: seq<seq<Value>>, args: seq<Value>)
    ensures RequestLines(pending + [args]) == RequestLines(pending) + [RequestLine(args)]
  {
  }

  /** Opening a pass on a worker that has sent nothing yet in this query. */
  lemma {:induction false} BeginIsCollecting(link: Link, w: WorkerState)
    requires w.batch.Some? && w.batch.value >= 1 && w.wire == [] && w.recorded == 0
    ensures Collecting(link, BeginCollect(w))
  {
  }

  lemma {:induction false} FileKeys(held: map<Line, CallResult>, lines: seq<Line>, replies: seq<CallResult>)
    requires |lines| == |replies|
    ensures File(held, lines, replies).Keys == held.Keys + Elements(lines)
  {
    forall line ensures line in File(held, lines, replies) <==> line in held || line in lines {
      FileIsEntrywise(held, lines, replies, line);
    }
  }

  /** A flush on a transport that holds, spelled out. */
  lemma {:induction false} FlushFiles(link: Link, w: WorkerState)
    requires Reliable(link) && w.collect.Some? && w.collect.value.pending != []
    ensures var (fault, w') := Flush(link, w);
      var lines := Waiting(w);
      && fault.None?
      && w'.batch == w.batch
      && w'.collect == Some(w.collect.value.(pending := []))
      && w'.wire == w.wire + [Batched(lines)]
      && w'.recorded == w.recorded + |lines|
      && w'.prefetched == File(w.prefetched, lines, BatchReplies(link.process.many(lines), |lines|))
  {
  }

  /** What a flush leaves: nothing waits, and what waited is answered. */
  lemma {:induction false} FlushSendsAll(link: Link, w: WorkerState)
    requires Reliable(link) && Consistent(link.process)
    requires w.collect.Some? && Accounted(w) && Honest(link, w)
    ensures var (fault, w') := Flush(link, w);
      && fault.None?
      && w'.batch == w.batch
      && w'.collect == Some(w.collect.value.(pending := []))
      && w'.prefetched.Keys == w.collect.value.queued
      && Accounted(w')
      && w'.wire == w.wire + (if Waiting(w) == [] then [] else [Batched(Waiting(w))])
      && Honest(link, w')
  {
    var (fault, w') := Flush(link, w);
    var lines := Waiting(w);
    FlushKeepsHonest(link, w);
    if lines == [] {
      assert w' == w;
    } else {
      FlushFiles(link, w);
      SentGrows(w.wire, Batched(lines));
      DistinctConcat(Sent(w.wire), lines);
      FileKeys(w.prefetched, lines, BatchReplies(link.process.many(lines), |lines|));
    }
  }

  /** A call of its own in a pass, on a transport that holds, spelled out. */
  lemma {:induction false} CallAloneFiles(link: Link, w: WorkerState, line: Line)
    requires Reliable(link) && w.collect.Some?
    ensures var (reply, w') := CallAlone(link, w, line);
      && reply == Truth(link.process, line)
      && w'.batch == w.batch
      && w'.collect.Some? && w'.collect.value.pending == w.collect.value.pending
      && w'.collect.value.queued == w.collect.value.queued + {line}
      && w'.wire == w.wire + [Single(line)]
      && w'.prefetched == w.prefetched[line := reply]
      && w'.recorded == w.recorded + 1 && w'.hits == w.hits + Hits([reply])
  {
  }

  lemma {:induction false} CallAloneCollects(link: Link, w: WorkerState, line: Line)
    requires Reliable(link) && Collecting(link, w) && line !in w.prefetched
    requires w.collect.value.placeholder.None? && w.collect.value.pending == []
    ensures var (_, w') := CallAlone(link, w, line); Collecting(link, w') && w'.collect.value.pending == []
  {
    var w' := CallAlone(link, w, line).1;
    CallAloneFiles(link, w, line);
    CallAloneIsHonest(link, w, line);
    SentAlone(w, w', line);
  }

  lemma {:induction false} SentAlone(w: WorkerState, w': WorkerState, line: Line)
    requires w.collect.Some? && Accounted(w) && line !in w.prefetched && w.collect.value.pending == []
    requires w'.collect.Some? && w'.collect.value.pending == [] &&
      w'.collect.value.queued == w.collect.value.queued + {line}
    requires w'.wire == w.wire + [Single(line)] && w'.recorded == w.recorded + 1
    requires w'.prefetched.Keys == w.prefetched.Keys + {line}
    ensures Accounted(w')
  {
    SentGrows(w.wire, Single(line));
    DistinctConcat(Sent(w.wire), [line]);
  }

  lemma {:induction false} QueueCollects(w: WorkerState, args: seq<Value>)
    requires w.collect.Some? && Accounted(w) && RequestLine(args) !in w.collect.value.queued
    ensures var c := w.collect.value;
      Accounted(w.(collect := Some(c.(queued := c.queued + {RequestLine(args)}, pending := c.pending + [args]))))
  {
    var line, c := RequestLine(args), w.collect.value;
    var w1 := w.(collect := Some(c.(queued := c.queued + {line}, pending := c.pending + [args])));
    RequestLinesGrow(c.pending, args);
    assert Elements(Waiting(w1)) == Elements(Waiting(w)) + {line};
    assert forall l | l in Waiting(w) :: l in Elements(Waiting(w));
  }

  /** The pass once a call's arguments are queued. */
  function Queued(w: WorkerState, args: seq<Value>): WorkerState
    requires w.collect.Some?
  {
    var c := w.collect.value;
    w.(collect := Some(c.(invoked := true, queued := c.queued + {RequestLine(args)}, pending := c.pending + [args])))
  }

  lemma {:induction false} QueuedCollects(w: WorkerState, args: seq<Value>)
    requires w.collect.Some? && Accounted(w) && RequestLine(args) !in w.collect.value.queued
    ensures Accounted(Queued(w, args)) && |Waiting(Queued(w, args))| == |w.collect.value.pending| + 1
  {
    QueueCollects(w.(collect := Some(w.collect.value.(invoked := true))), args);
  }

  /** A full batch flushed. */
  lemma {:induction false} FlushedCollects(link: Link, w: WorkerState)
    requires Reliable(link) && Consistent(link.process) && w.batch.Some? && w.collect.Some?
    requires Accounted(w) && Honest(link, w) && |Waiting(w)| == w.batch.value >= 1
    requires forall k | 0 <= k < |w.wire| && w.wire[k].Batched? :: |w.wire[k].lines| == w.batch.value
    ensures var (fault, w') := Flush(link, w);
      fault.None? && Collecting(link, w') && w'.collect.value.placeholder == w.collect.value.placeholder
  {
    FlushSendsAll(link, w);
  }

  lemma {:induction false} CallLaterCollects(link: Link, w: WorkerState, args: seq<Value>)
    requires Reliable(link) && Consistent(link.process) && Collecting(link, w)
    requires w.collect.value.placeholder.Some?
    ensures var (_, w') := CallLater(link, w, args); Collecting(link, w') && w'.collect.value.placeholder.Some?
  {
    if RequestLine(args) !in w.collect.value.queued {
      QueuedCollects(w, args);
      if |w.collect.value.pending| + 1 >= w.batch.value {
        FlushedCollects(link, Queued(w, args));
      }
    }
  }

  /** No call waits while there is no stand-in to answer it with. */
  predicate QueuesBehindPlaceholder(w: WorkerState) {
    w.collect.Some? && w.collect.value.placeholder.None? ==> w.collect.value.pending == []
  }

  lemma {:induction false} CallKeepsCollecting(link: Link, w: WorkerState, args: seq<Value>)
    requires Reliable(link) && Consistent(link.process)
    requires Collecting(link, w) && QueuesBehindPlaceholder(w)
    ensures var (_, w') := Call(link, w, args); Collecting(link, w') && QueuesBehindPlaceholder(w')
  {
    var line := RequestLine(args);
    if line in w.prefetched {
    } else if w.collect.value.placeholder.Some? {
      CallLaterCollects(link, w, args);
    } else {
      CallAloneCollects(link, w.(collect := Some(w.collect.value.(invoked := true))), line);
    }
  }

  /** The invariant over a whole collect pass, for every statement. */
  lemma {:induction false} RunKeepsCollecting<R>(st: Statement<R>, h: seq<Value>, links: seq<Link>,
      ws: seq<WorkerState>, i: nat)
    requires Runs(st, |ws|) && |links| == |ws| && i < |ws|
    requires AllReliable(links) && AllConsistent(links)
    requires Collecting(links[i], ws[i]) && QueuesBehindPlaceholder(ws[i])
    ensures var ws' := Run(st, h, links, ws).1; Collecting(links[i], ws'[i]) && QueuesBehindPlaceholder(ws'[i])
    decreases st.rank(h)
  {
    match st.step(h)
    case Return(r) =>
    case Invoke(k, args) =>
      if k == i {
        CallKeepsCollecting(links[i], ws[i], args);
      }
      var (reply, w) := Call(links[k], ws[k], args);
      if reply.Success? {
        RunKeepsCollecting(st, h + [reply.value.value], links, ws[k := w], i);
      }
  }

  // -------------------------------------------------- what the statement asked

  /** The distinct calls a run makes to function `i`, as lines. */
  ghost function Asked<R>(st: Statement<R>, h: seq<Value>, links: seq<Link>, ws: seq<WorkerState>, i: nat): set<Line>
    requires Runs(st, |ws|) && |links| == |ws|
    decreases st.rank(h)
  {
    match st.step(h)
    case Return(_) => {}
    case Invoke(k, args) =>
      var (reply, w) := Call(links[k], ws[k], args);
      (if k == i then {RequestLine(args)} else {}) +
      (if reply.Success? then Asked(st, h + [reply.value.value], links, ws[k := w], i) else {})
  }

  lemma {:induction false} CallQueues(link: Link, w: WorkerState, args: seq<Value>)
    requires Reliable(link) && Consistent(link.process) && Collecting(link, w)
    ensures var w' := Call(link, w, args).1;
      w'.collect.Some? && w'.collect.value.queued == w.collect.value.queued + {RequestLine(args)}
  {
    if RequestLine(args) !in w.prefetched && w.collect.value.placeholder.Some? &&
      RequestLine(args) !in w.collect.value.queued {
      QueuedCollects(w, args);
      FlushSendsAll(link, Queued(w, args));
    }
  }

  lemma {:induction false} RunQueuesAsked<R>(st: Statement<R>, h: seq<Value>, links: seq<Link>, ws: seq<WorkerState>,
      i: nat)
    requires Runs(st, |ws|) && |links| == |ws| && i < |ws|
    requires AllReliable(links) && AllConsistent(links)
    requires Collecting(links[i], ws[i]) && QueuesBehindPlaceholder(ws[i])
    ensures var w := Run(st, h, links, ws).1[i];
      w.collect.Some? && w.collect.value.queued == ws[i].collect.value.queued + Asked(st, h, links, ws, i)
    decreases st.rank(h)
  {
    match st.step(h)
    case Return(r) =>
    case Invoke(k, args) =>
      if k == i {
        CallQueues(links[i], ws[i], args);
        CallKeepsCollecting(links[i], ws[i], args);
      }
      var (reply, w) := Call(links[k], ws[k], args);
      if reply.Success? {
        RunQueuesAsked(st, h + [reply.value.value], links, ws[k := w], i);
      }
  }

  // ----------------------------------------------------------- what was cached

  /** The calls in hand whose reply the worker had cached. */
  ghost function Cached(held: map<Line, CallResult>): set<Line> {
    set line | line in held && held[line].Success? && held[line].value.cached
  }

  /** The cache hits counted are the calls in hand whose reply was cached. */
  ghost predicate Credited(w: WorkerState) { w.hits == |Cached(w.prefetched)| }

  lemma {:induction false} CachedGrows(held: map<Line, CallResult>, line: Line, reply: CallResult)
    requires line !in held
    ensures |Cached(held[line := reply])| == |Cached(held)| + if FromCache(reply) then 1 else 0
  {
    assert Cached(held[line := reply]) == Cached(held) + if FromCache(reply) then {line} else {};
  }

  lemma {:induction false} CachedFiled(held: map<Line, CallResult>, lines: seq<Line>, replies: seq<CallResult>)
    requires |lines| == |replies| && Distinct(lines) && held.Keys !! Elements(lines)
    ensures |Cached(File(held, lines, replies))| == |Cached(held)| + Hits(replies)
    decreases lines
  {
    if lines != [] {
      assert lines[0] in Elements(lines) && forall l | l in lines[1..] :: l in Elements(lines);
      assert forall k | 0 <= k < |lines[1..]| :: lines[1..][k] == lines[k + 1];
      CachedGrows(held, lines[0], replies[0]);
      CachedFiled(held[lines[0] := replies[0]], lines[1..], replies[1..]);
    }
  }

  lemma {:induction false} FlushKeepsCredited(link: Link, w: WorkerState)
    requires Reliable(link) && w.collect.Some? && Accounted(w) && Credited(w)
    ensures Credited(Flush(link, w).1)
  {
    if w.collect.value.pending != [] {
      var lines := Waiting(w);
      FlushFiles(link, w);
      CachedFiled(w.prefetched, lines, BatchReplies(link.process.many(lines), |lines|));
    }
  }

  lemma {:induction false} CallKeepsCredited(link: Link, w: WorkerState, args: seq<Value>)
    requires Reliable(link) && Collecting(link, w) && Credited(w)
    ensures Credited(Call(link, w, args).1)
  {
    var line := RequestLine(args);
    if line !in w.prefetched {
      if w.collect.value.placeholder.None? {
        var w0 := w.(collect := Some(w.collect.value.(invoked := true)));
        CallAloneFiles(link, w0, line);
        CachedGrows(w.prefetched, line, Truth(link.process, line));
        assert Hits([Truth(link.process, line)]) == if FromCache(Truth(link.process, line)) then 1 else 0;
      } else if line !in w.collect.value.queued {
        QueuedCollects(w, args);
        FlushKeepsCredited(link, Queued(w, args));
      }
    }
  }

  lemma {:induction false} RunKeepsCredited<R>(st: Statement<R>, h: seq<Value>, links: seq<Link>,
      ws: seq<WorkerState>, i: nat)
    requires Runs(st, |ws|) && |links| == |ws| && i < |ws|
    requires AllReliable(links) && AllConsistent(links)
    requires Collecting(links[i], ws[i]) && QueuesBehindPlaceholder(ws[i]) && Credited(ws[i])
    ensures Credited(Run(st, h, links, ws).1[i])
    decreases st.rank(h)
  {
    match st.step(h)
    case Return(r) =>
    case Invoke(k, args) =>
      if k == i {
        CallKeepsCredited(links[i], ws[i], args);
        CallKeepsCollecting(links[i], ws[i], args);
      }
      var (reply, w) := Call(links[k], ws[k], args);
      if reply.Success? {
        RunKeepsCredited(st, h + [reply.value.value], links, ws[k := w], i);
      }
  }

  // ------------------------------------------------------------- a whole pass

  /** A worker that has sent nothing yet in this query. */
  predicate Unused(w: WorkerState) { w.wire == [] && w.recorded == 0 && w.hits == 0 }

  /**
   A whole pass, for every statement: the calls it made are exactly the calls
   answered, each by one call on the wire, batched `batch` at a time but for
   the last request; the counts are the calls sent and the cached replies.
   */
  lemma {:induction false} CollectPassSendsEachCallOnce<R>(st: Statement<R>, links: seq<Link>, ws: seq<WorkerState>,
      i: nat)
    requires Runs(st, |ws|) && |links| == |ws| && i < |ws|
    requires AllReliable(links) && AllConsistent(links)
    requires ws[i].batch.Some? && ws[i].batch.value >= 1 && Unused(ws[i])
    ensures var (invoked, w) := EndCollect(links[i], Run(st, [], links, BeginAll(ws)).1[i]);
      && invoked.Success?
      && w.prefetched.Keys == Asked(st, [], links, BeginAll(ws), i)
      && Distinct(Sent(w.wire)) && Elements(Sent(w.wire)) == w.prefetched.Keys
      && w.recorded == |Sent(w.wire)| && Credited(w)
      && (forall k | 0 <= k < |w.wire| && w.wire[k].Batched? ::
            if k < |w.wire| - 1 then |w.wire[k].lines| == ws[i].batch.value
            else 1 <= |w.wire[k].lines| <= ws[i].batch.value)
      && Honest(links[i], w)
  {
    var begun := BeginAll(ws);
    BeginIsCollecting(links[i], ws[i]);
    assert Credited(begun[i]);
    RunKeepsCollecting(st, [], links, begun, i);
    RunQueuesAsked(st, [], links, begun, i);
    RunKeepsCredited(st, [], links, begun, i);
    RunKeepsBatch(st, [], links, begun, i);
    PassEnds(links[i], Run(st, [], links, begun).1[i]);
  }

  lemma {:induction false} PassEnds(link: Link, w: WorkerState)
    requires Reliable(link) && Consistent(link.process) && Collecting(link, w) && Credited(w)
    ensures var (invoked, w') := EndCollect(link, w);
      && invoked.Success?
      && w'.prefetched.Keys == w.collect.value.queued
      && Distinct(Sent(w'.wire)) && Elements(Sent(w'.wire)) == w'.prefetched.Keys
      && w'.recorded == |Sent(w'.wire)| && Credited(w')
      && (forall k | 0 <= k < |w'.wire| && w'.wire[k].Batched? ::
            if k < |w'.wire| - 1 then |w'.wire[k].lines| == w.batch.value else 1 <= |w'.wire[k].lines| <= w.batch.value)
      && Honest(link, w')
  {
    FlushSendsAll(link, w);
    FlushKeepsCredited(link, w);
  }

  lemma {:induction false} RunKeepsBatch<R>(st: Statement<R>, h: seq<Value>, links: seq<Link>, ws: seq<WorkerState>,
      i: nat)
    requires Runs(st, |ws|) && |links| == |ws| && i < |ws|
    ensures Run(st, h, links, ws).1[i].batch == ws[i].batch
    decreases st.rank(h)
  {
    match st.step(h)
    case Return(r) =>
    case Invoke(k, args) =>
      var (reply, w) := Call(links[k], ws[k], args);
      if reply.Success? {
        RunKeepsBatch(st, h + [reply.value.value], links, ws[k := w], i);
      }
  }
}
