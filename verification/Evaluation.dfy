/**
 What a query over worker-backed functions gives, told by the values the functions
 take and return (the protocol at the head of functions.rs): the wire reads back,
 and the batched query evaluates the statement.
 */
module Evaluation {
  import opened Wrappers
  import opened Values
  import opened Batching

  // ------------------------------------------------------ the wire reads back

  /** The value a worker reads off the wire. */
  function Decoded(j: Json): Value {
    match j
    case JNull => Null
    case JInt(n) => Integer(n)
    case JReal(x) => Real(x)
    case JText(t) => Text(t)
    case JBytes(b) => Blob(b)
  }

  /** The arguments a worker reads off a call's line. */
  function Arguments(line: Line): (args: seq<Value>)
    ensures |args| == |line|
  {
    seq(|line|, i requires 0 <= i < |line| => Decoded(line[i]))
  }

  /** The arguments as they reach a worker: JSON has no infinite number, so an
      infinite REAL goes as NULL. */
  function Reaching(args: seq<Value>): (r: seq<Value>)
    ensures |r| == |args|
  {
    seq(|args|, i requires 0 <= i < |args| => if args[i].Infinity? then Null else args[i])
  }

  /** A worker reads the arguments it is called with. */
  lemma {:induction false} LineReadsBack(args: seq<Value>)
    ensures Arguments(RequestLine(args)) == Reaching(args)
    ensures (forall i | 0 <= i < |args| :: !args[i].Infinity?) ==> Arguments(RequestLine(args)) == args
  {
    forall i | 0 <= i < |args| ensures Arguments(RequestLine(args))[i] == Reaching(args)[i] {
      assert RequestLine(args)[i] == EncodeValue(args[i]);
    }
  }

  lemma {:induction false} EncodedReaches(v: Value, w: Value)
    ensures EncodeValue(v) == EncodeValue(w) <==> (if v.Infinity? then Null else v) == (if w.Infinity? then Null else w)
  {
  }

  /** Two argument lists go out as one line, and so get one reply, exactly when
      they are equal but for infinite REALs and NULLs. */
  lemma {:induction false} LinesTellApart(a: seq<Value>, b: seq<Value>)
    ensures RequestLine(a) == RequestLine(b) <==> Reaching(a) == Reaching(b)
  {
    LineReadsBack(a);
    LineReadsBack(b);
    if Reaching(a) == Reaching(b) {
      forall i | 0 <= i < |a| ensures RequestLine(a)[i] == RequestLine(b)[i] {
        assert Reaching(a)[i] == Reaching(b)[i];
        EncodedReaches(a[i], b[i]);
      }
    }
  }

  // ------------------------------------------------------ workers as functions

  /** What a worker computes of the arguments it reads: a value, or a refusal. */
  type Function = seq<Value> -> Result<Value, string>

  /** A response says the result. */
  predicate Says(e: Entry, result: Result<Value, string>) {
    match e
    case Answer(value, _) => result == Success(value)
    case Refusal(message) => result == Failure(message)
    case Malformed(_) => false
  }

  /** A batched response says each result in its place, or refuses all alike. */
  predicate SaysEach(b: BatchLine, lines: seq<Line>, f: Function) {
    match b
    case Results(entries) =>
      |entries| == |lines| && forall i | 0 <= i < |lines| :: Says(entries[i], f(Arguments(lines[i])))
    case RefusesAll(message) => forall i | 0 <= i < |lines| :: f(Arguments(lines[i])) == Failure(message)
    case Unreadable(_) => false
  }

  /** A worker process that computes `f`, called alone or in a batch. */
  ghost predicate Computes(p: Process, f: Function) {
    && (forall line :: Says(p.one(line), f(Arguments(line))))
    && (forall lines | lines != [] :: SaysEach(p.many(lines), lines, f))
  }

  ghost predicate AllCompute(links: seq<Link>, fs: seq<Function>) {
    |links| == |fs| && forall i | 0 <= i < |links| :: Computes(links[i].process, fs[i])
  }

  /** A statement's result, its calls evaluated: the first that is refused fails it. */
  ghost function Evaluate<R>(st: Statement<R>, history: seq<Value>, fs: seq<Function>): Result<R, Fault>
    requires Runs(st, |fs|)
    decreases st.rank(history)
  {
    match st.step(history)
    case Return(r) => Success(r)
    case Invoke(k, args) =>
      match fs[k](Reaching(args))
      case Failure(message) => Failure(Refused(message))
      case Success(v) => Evaluate(st, history + [v], fs)
  }

  /** What a caller sees of a result. */
  function Shown(result: Result<Value, string>): Result<Value, Fault> {
    match result
    case Success(v) => Success(v)
    case Failure(message) => Failure(Refused(message))
  }

  lemma {:induction false} ComputesIsConsistent(p: Process, f: Function)
    requires Computes(p, f)
    ensures Consistent(p)
    ensures forall line :: Seen(Truth(p, line)) == Shown(f(Arguments(line)))
  {
    forall line ensures Seen(Truth(p, line)) == Shown(f(Arguments(line))) {
      assert Says(p.one(line), f(Arguments(line)));
    }
    forall lines: seq<Line>, i: nat | i < |lines|
      ensures Seen(BatchReplies(p.many(lines), |lines|)[i]) == Seen(Truth(p, lines[i]))
    {
      assert SaysEach(p.many(lines), lines, f);
      assert Says(p.one(lines[i]), f(Arguments(lines[i])));
    }
  }

  lemma {:induction false} PlainEvaluates<R>(st: Statement<R>, h: seq<Value>, links: seq<Link>, fs: seq<Function>)
    requires Runs(st, |links|) && AllCompute(links, fs)
    ensures PlainRun(st, h, links) == Evaluate(st, h, fs)
    decreases st.rank(h)
  {
    match st.step(h)
    case Return(_) =>
    case Invoke(k, args) =>
      ComputesIsConsistent(links[k].process, fs[k]);
      LineReadsBack(args);
      assert Seen(Truth(links[k].process, RequestLine(args))) == Shown(fs[k](Reaching(args)));
      match fs[k](Reaching(args))
      case Failure(_) =>
      case Success(v) => PlainEvaluates(st, h + [v], links, fs);
  }

  /**
   The main theorem in the functions' own terms. When each worker computes a
   function of the arguments it reads, the query gives the statement evaluated
   with those functions, however its calls were batched and whatever stood in
   for them; or, on a transport that can fail, the transport's failure.
   */
  lemma {:induction false} QueryEvaluates<R>(st: Statement<R>, links: seq<Link>, ws: seq<WorkerState>,
      fs: seq<Function>)
    requires Runs(st, |ws|) && |links| == |ws| && AllCompute(links, fs) && Idle(ws)
    ensures TrueOrDown(Query(st, links, ws).0, Evaluate(st, [], fs), AllReliable(links))
  {
    forall i | 0 <= i < |links| ensures Consistent(links[i].process) {
      ComputesIsConsistent(links[i].process, fs[i]);
    }
    PlainEvaluates(st, [], links, fs);
    QueryIsPlain(st, links, ws);
  }
}
