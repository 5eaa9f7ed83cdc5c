/**
 What a collect pass puts on the wire, and what the run after it adds
 (functions.rs, db.rs), on a transport that holds.
 */
module CollectPass {
  import opened Wrappers
  import opened Values
  import opened Batching

  /** A call of its own that brought no value to stand in: a failure, or NULL. */
  predicate Barren(p: Process, r: Request) {
    r.Single? && (Seen(Truth(p, r.line)).Failure? || Seen(Truth(p, r.line)) == Success(Null))
  }

  /** A call of its own that brought `v`, which can stand in. */
  predicate Brings(p: Process, r: Request, v: Value) {
    r.Single? && v != Null && Seen(Truth(p, r.line)) == Success(v)
  }

  /** Calls go alone up to the one at `at`, and every later one in a batch. */
  ghost predicate AloneUpTo(p: Process, wire: seq<Request>, at: nat) {
    && at <= |wire|
    && (forall k | 0 <= k < at :: Barren(p, wire[k]))
    && (at < |wire| ==> wire[at].Single? && !Barren(p, wire[at]))
    && (forall k | at < k < |wire| :: wire[k].Batched?)
  }

  /** The stand-in is the first value that isn't NULL, and until there is one
      every call goes alone. */
  ghost predicate StandsIn(p: Process, w: WorkerState)
    requires w.collect.Some?
  {
    match w.collect.value.placeholder
    case None => AloneUpTo(p, w.wire, |w.wire|) && w.collect.value.pending == []
    case Some(v) => exists at: nat :: AloneUpTo(p, w.wire, at) && at < |w.wire| && Brings(p, w.wire[at], v)
  }

  lemma {:induction false} BatchedOn(p: Process, wire: seq<Request>, at: nat, r: Request)
    requires AloneUpTo(p, wire, at) && at < |wire| && r.Batched?
    ensures AloneUpTo(p, wire + [r], at)
  {
  }

  lemma {:induction false} FlushStandsIn(link: Link, w: WorkerState)
    requires Reliable(link) && w.collect.Some? && w.collect.value.placeholder.Some? && StandsIn(link.process, w)
    ensures var w' := Flush(link, w).1; w'.collect.Some? && StandsIn(link.process, w')
  {
    if w.collect.value.pending != [] {
      FlushFiles(link, w);
      var at: nat :| AloneUpTo(link.process, w.wire, at) && at < |w.wire| &&
        Brings(link.process, w.wire[at], w.collect.value.placeholder.value);
      BatchedOn(link.process, w.wire, at, Batched(Waiting(w)));
      assert Brings(link.process, Flush(link, w).1.wire[at], w.collect.value.placeholder.value);
    }
  }

  lemma {:induction false} AloneStandsIn(link: Link, w: WorkerState, line: Line)
    requires Reliable(link) && w.collect.Some? && w.collect.value.placeholder.None? && StandsIn(link.process, w)
    ensures var w' := CallAlone(link, w, line).1; w'.collect.Some? && StandsIn(link.process, w')
  {
    var p, at := link.process, |w.wire|;
    var (reply, w') := CallAlone(link, w, line);
    CallAloneFiles(link, w, line);
    if w'.collect.value.placeholder.Some? {
      assert AloneUpTo(p, w'.wire, at) && Brings(p, w'.wire[at], w'.collect.value.placeholder.value);
    } else {
      assert Barren(p, w'.wire[at]);
    }
  }

  /** What one call of a pass is answered, and that the stand-in stays the first
      value that isn't NULL. */
  lemma {:induction false} CallStandsIn(link: Link, w: WorkerState, args: seq<Value>)
    requires Reliable(link) && w.collect.Some? && StandsIn(link.process, w)
    ensures var (reply, w') := Call(link, w, args);
      var line, standIn := RequestLine(args), w.collect.value.placeholder;
      && w'.collect.Some? && StandsIn(link.process, w')
      && Seen(reply) ==
        if line in w.prefetched then Seen(w.prefetched[line])
        else if standIn.Some? then Success(standIn.value)
        else Seen(Truth(link.process, line))
  {
    var line := RequestLine(args);
    if line !in w.prefetched {
      var w0 := w.(collect := Some(w.collect.value.(invoked := true)));
      if w.collect.value.placeholder.None? {
        AloneStandsIn(link, w0, line);
        CallAloneFiles(link, w0, line);
      } else if line !in w.collect.value.queued {
        FlushStandsIn(link, Queued(w, args));
        FlushSucceeds(link, Queued(w, args));
      }
    }
  }

  lemma {:induction false} FlushSucceeds(link: Link, w: WorkerState)
    requires Reliable(link) && w.collect.Some?
    ensures Flush(link, w).0.None?
  {
    if w.collect.value.pending != [] {
      FlushFiles(link, w);
    }
  }

  lemma {:induction false} RunStandsIn<R>(st: Statement<R>, h: seq<Value>, links: seq<Link>, ws: seq<WorkerState>,
      i: nat)
    requires Runs(st, |ws|) && |links| == |ws| && i < |ws| && Reliable(links[i])
    requires ws[i].collect.Some? && StandsIn(links[i].process, ws[i])
    ensures var w := Run(st, h, links, ws).1[i]; w.collect.Some? && StandsIn(links[i].process, w)
    decreases st.rank(h)
  {
    match st.step(h)
    case Return(_) =>
    case Invoke(k, args) =>
      if k == i {
        CallStandsIn(links[i], ws[i], args);
      }
      var (reply, w) := Call(links[k], ws[k], args);
      if reply.Success? {
        RunStandsIn(st, h + [reply.value.value], links, ws[k := w], i);
      }
  }

  /** The worker once its collect pass is closed. */
  ghost function Collected<R>(st: Statement<R>, links: seq<Link>, ws: seq<WorkerState>, i: nat): WorkerState
    requires Runs(st, |ws|) && |links| == |ws| && i < |ws|
  {
    EndCollect(links[i], Run(st, [], links, BeginAll(ws)).1[i]).1
  }

  /**
   Over a whole collect pass of any statement, calls go out alone only until one
   brings a value that isn't NULL: all but the last of them failed or brought
   NULL, and every request after it is a batch.
   */
  lemma {:induction false} PassStandsIn<R>(st: Statement<R>, links: seq<Link>, ws: seq<WorkerState>, i: nat)
    requires Runs(st, |ws|) && |links| == |ws| && i < |ws| && Reliable(links[i])
    requires ws[i].batch.Some? && Unused(ws[i])
    ensures exists at: nat :: AloneUpTo(links[i].process, Collected(st, links, ws, i).wire, at)
  {
    var begun := BeginAll(ws);
    assert AloneUpTo(links[i].process, begun[i].wire, 0);
    RunStandsIn(st, [], links, begun, i);
    var w := Run(st, [], links, begun).1[i];
    if w.collect.value.placeholder.Some? {
      FlushStandsIn(links[i], w);
      var at: nat :| AloneUpTo(links[i].process, Flush(links[i], w).1.wire, at);
      assert AloneUpTo(links[i].process, Collected(st, links, ws, i).wire, at);
    } else {
      assert AloneUpTo(links[i].process, Collected(st, links, ws, i).wire, |w.wire|);
    }
  }

  // --------------------------------------------------- the run after the pass

  /** `after` goes on from `before` with calls of their own, none of them held. */
  ghost predicate GoesOn(before: seq<Request>, after: seq<Request>, held: map<Line, CallResult>) {
    && |before| <= |after| && after[..|before|] == before
    && forall k | |before| <= k < |after| :: after[k].Single? && after[k].line !in held
  }

  lemma {:induction false} CallGoesOn(link: Link, w: WorkerState, args: seq<Value>)
    requires w.collect.None?
    ensures var w' := Call(link, w, args).1;
      w'.collect.None? && w'.prefetched == w.prefetched && GoesOn(w.wire, w'.wire, w.prefetched)
  {
  }

  lemma {:induction false} RunGoesOn<R>(st: Statement<R>, h: seq<Value>, links: seq<Link>, ws: seq<WorkerState>,
      i: nat)
    requires Runs(st, |ws|) && |links| == |ws| && i < |ws| && ws[i].collect.None?
    ensures var w := Run(st, h, links, ws).1[i];
      w.prefetched == ws[i].prefetched && GoesOn(ws[i].wire, w.wire, ws[i].prefetched)
    decreases st.rank(h)
  {
    match st.step(h)
    case Return(_) =>
    case Invoke(k, args) =>
      CallGoesOnAt(links, ws, k, args, i);
      var (reply, w) := Call(links[k], ws[k], args);
      if reply.Success? {
        RunGoesOn(st, h + [reply.value.value], links, ws[k := w], i);
        GoesOnOn(ws[i].wire, ws[k := w][i].wire, Run(st, h, links, ws).1[i].wire, ws[i].prefetched);
      }
  }

  lemma {:induction false} CallGoesOnAt(links: seq<Link>, ws: seq<WorkerState>, k: nat, args: seq<Value>, i: nat)
    requires |links| == |ws| && i < |ws| && k < |ws| && ws[i].collect.None?
    ensures var w := ws[k := Call(links[k], ws[k], args).1][i];
      w.collect.None? && w.prefetched == ws[i].prefetched && GoesOn(ws[i].wire, w.wire, ws[i].prefetched)
  {
    if k == i {
      CallGoesOn(links[k], ws[k], args);
    }
  }

  lemma {:induction false} GoesOnOn(a: seq<Request>, b: seq<Request>, c: seq<Request>, held: map<Line, CallResult>)
    requires GoesOn(a, b, held) && GoesOn(b, c, held)
    ensures GoesOn(a, c, held)
  {
    assert c[..|a|] == c[..|b|][..|a|] == a;
    forall k | |a| <= k < |c| ensures c[k].Single? && c[k].line !in held {
      if k < |b| {
        assert c[k] == c[..|b|][k];
      }
    }
  }

  lemma {:induction false} EndFromCloses(links: seq<Link>, ws: seq<WorkerState>, i: nat, any: bool, j: nat)
    requires |links| == |ws| && i <= |ws| && j < |ws| && ws[j].batch.Some?
    requires EndFrom(links, ws, i, any).0.Success?
    ensures EndFrom(links, ws, i, any).1[j] == if j < i then ws[j] else EndCollect(links[j], ws[j]).1
    decreases |ws| - i
  {
    if i < |ws| {
      if ws[i].batch.None? {
        EndFromCloses(links, ws, i + 1, any, j);
      } else {
        FlushKeepsInvoked(links[i], ws[i]);
        var (invoked, w) := EndCollect(links[i], ws[i]);
        EndFromCloses(links, ws[i := w], i + 1, any || invoked.value, j);
      }
    }
  }

  /**
   Over a whole query a batching worker is sent what its collect pass sent and
   then, one by one, only calls the pass had no reply to.
   */
  lemma {:induction false} QueryGoesOn<R>(st: Statement<R>, links: seq<Link>, ws: seq<WorkerState>, i: nat)
    requires Runs(st, |ws|) && |links| == |ws| && i < |ws| && ws[i].batch.Some?
    requires AllReliable(links) && AllConsistent(links) && Idle(ws)
    ensures var w := Collected(st, links, OpenPhase(ws), i);
      GoesOn(w.wire, Query(st, links, ws).1[i].wire, w.prefetched)
  {
    var ws0 := OpenPhase(ws);
    var begun := BeginAll(ws0);
    RunIsPlain(st, [], links, begun);
    var ws1 := Run(st, [], links, begun).1;
    EndFromIsHonest(links, ws1, 0, false);
    var (invoked, ws2) := EndFrom(links, ws1, 0, false);
    RunKeepsBatch(st, [], links, begun, i);
    EndFromCloses(links, ws1, 0, false, i);
    if invoked.value {
      RunGoesOn(st, [], links, ws2, i);
    }
    assert ws[i].batch.Some? && AnyBatches(ws);
  }

  /** A function no call was made to is as it was. */
  lemma {:induction false} UnaskedStays<R>(st: Statement<R>, h: seq<Value>, links: seq<Link>, ws: seq<WorkerState>,
      i: nat)
    requires Runs(st, |ws|) && |links| == |ws| && i < |ws| && Asked(st, h, links, ws, i) == {}
    ensures Run(st, h, links, ws).1[i] == ws[i]
    decreases st.rank(h)
  {
    match st.step(h)
    case Return(_) =>
    case Invoke(k, args) =>
      var (reply, w) := Call(links[k], ws[k], args);
      var here: set<Line> := if k == i then {RequestLine(args)} else {};
      assert here <= Asked(st, h, links, ws, i);
      assert k == i ==> RequestLine(args) in here;
      if reply.Success? {
        UnaskedStays(st, h + [reply.value.value], links, ws[k := w], i);
      }
  }

  lemma {:induction false} IdlePassEnds(links: seq<Link>, ws: seq<WorkerState>, i: nat, any: bool)
    requires |links| == |ws| && i <= |ws|
    requires forall j | i <= j < |ws| && ws[j].batch.Some? :: ws[j].collect == Some(NEW_COLLECT)
    ensures var (invoked, ws') := EndFrom(links, ws, i, any);
      invoked == Success(any) && forall j | 0 <= j < |ws| :: ws'[j].wire == ws[j].wire
    decreases |ws| - i
  {
    if i < |ws| {
      if ws[i].batch.None? {
        IdlePassEnds(links, ws, i + 1, any);
      } else {
        IdlePassEnds(links, ws[i := EndCollect(links[i], ws[i]).1], i + 1, any);
      }
    }
  }

  /** A statement that calls no batching function runs once: its result and all
      that was sent are those of the pass. */
  lemma {:induction false} UncalledRunsOnce<R>(st: Statement<R>, links: seq<Link>, ws: seq<WorkerState>)
    requires Runs(st, |ws|) && |links| == |ws| && AnyBatches(ws)
    requires forall i | 0 <= i < |ws| && ws[i].batch.Some? :: Asked(st, [], links, BeginAll(OpenPhase(ws)), i) == {}
    ensures var (pass, query) := (Run(st, [], links, BeginAll(OpenPhase(ws))), Query(st, links, ws));
      query.0 == pass.0 && forall i | 0 <= i < |ws| :: query.1[i].wire == pass.1[i].wire
  {
    var begun := BeginAll(OpenPhase(ws));
    var ws1 := Run(st, [], links, begun).1;
    forall i | 0 <= i < |ws| && ws1[i].batch.Some? ensures ws1[i].collect == Some(NEW_COLLECT) {
      RunKeepsBatch(st, [], links, begun, i);
      assert ws[i].batch.Some?;
      UnaskedStays(st, [], links, begun, i);
    }
    IdlePassEnds(links, ws1, 0, false);
  }
}
