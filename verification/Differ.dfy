/**
 Row events (differ.rs): what a consumer replaying them over the old rows must
 end up with is the new rows, without ever removing a row that is not there.
 */
module Differ {
  import opened Wrappers
  import opened Values

  /** The table and file every event also names are the same throughout one
      diff, so only the rows are kept. */
  datatype RowEvent = Insert(row: Row) | Update(before: Row, after: Row) | Delete(row: Row)

  /** Replay events over a bag of rows; `None` once one removes an absent row. */
  function Replay(rows: multiset<Row>, events: seq<RowEvent>): Option<multiset<Row>>
    decreases |events|
  {
    if events == [] then Some(rows)
    else
      match events[0]
      case Insert(row) => Replay(rows + multiset{row}, events[1..])
      case Delete(row) => if row in rows then Replay(rows - multiset{row}, events[1..]) else None
      case Update(before, after) =>
        if before in rows then Replay(rows - multiset{before} + multiset{after}, events[1..]) else None
  }

  lemma {:induction false} ReplayConcat(rows: multiset<Row>, a: seq<RowEvent>, b: seq<RowEvent>)
    ensures Replay(rows, a + b) == match Replay(rows, a) case None => None case Some(mid) => Replay(mid, b)
    decreases |a|
  {
    if a == [] {
      assert a + b == b;
    } else {
      assert (a + b)[0] == a[0] && (a + b)[1..] == a[1..] + b;
      match a[0]
      case Insert(row) => ReplayConcat(rows + multiset{row}, a[1..], b);
      case Delete(row) => if row in rows { ReplayConcat(rows - multiset{row}, a[1..], b); }
      case Update(before, after) =>
        if before in rows { ReplayConcat(rows - multiset{before} + multiset{after}, a[1..], b); }
    }
  }

  function Deletes(rows: seq<Row>): (events: seq<RowEvent>)
    ensures |events| == |rows|
  {
    seq(|rows|, i requires 0 <= i < |rows| => Delete(rows[i]))
  }

  function Inserts(rows: seq<Row>): (events: seq<RowEvent>)
    ensures |events| == |rows|
  {
    seq(|rows|, i requires 0 <= i < |rows| => Insert(rows[i]))
  }

  function Updates(before: seq<Row>, after: seq<Row>): (events: seq<RowEvent>)
    requires |before| == |after|
    ensures |events| == |before|
  {
    seq(|before|, i requires 0 <= i < |before| => Update(before[i], after[i]))
  }

  lemma {:induction false} ReplayDeletes(bag: multiset<Row>, rows: seq<Row>)
    requires multiset(rows) <= bag
    ensures Replay(bag, Deletes(rows)) == Some(bag - multiset(rows))
    decreases |rows|
  {
    if rows == [] {
      assert bag - multiset(rows) == bag;
    } else {
      assert rows == [rows[0]] + rows[1..];
      assert Deletes(rows)[1..] == Deletes(rows[1..]);
      ReplayDeletes(bag - multiset{rows[0]}, rows[1..]);
      assert bag - multiset(rows) == bag - multiset{rows[0]} - multiset(rows[1..]);
    }
  }

  lemma {:induction false} ReplayInserts(bag: multiset<Row>, rows: seq<Row>)
    ensures Replay(bag, Inserts(rows)) == Some(bag + multiset(rows))
    decreases |rows|
  {
    if rows == [] {
      assert bag + multiset(rows) == bag;
    } else {
      assert rows == [rows[0]] + rows[1..];
      assert Inserts(rows)[1..] == Inserts(rows[1..]);
      ReplayInserts(bag + multiset{rows[0]}, rows[1..]);
      assert bag + multiset(rows) == bag + multiset{rows[0]} + multiset(rows[1..]);
    }
  }

  lemma {:induction false} BagTurns<R(!new)>(bag: multiset<R>, b: multiset<R>, a: multiset<R>, bs: multiset<R>,
      more: multiset<R>)
    requires b + bs <= bag
    ensures bs <= bag - b + a
    ensures bag - (b + bs) + (a + more) == bag - b + a - bs + more
  {
    forall row
      ensures bs[row] <= (bag - b + a)[row]
      ensures (bag - (b + bs) + (a + more))[row] == (bag - b + a - bs + more)[row]
    {
      assert (b + bs)[row] <= bag[row];
    }
  }

  lemma {:induction false} ReplayUpdates(bag: multiset<Row>, before: seq<Row>, after: seq<Row>)
    requires |before| == |after| && multiset(before) <= bag
    ensures Replay(bag, Updates(before, after)) == Some(bag - multiset(before) + multiset(after))
    decreases |before|
  {
    if before == [] {
      assert bag - multiset(before) + multiset(after) == bag;
    } else {
      assert before == [before[0]] + before[1..] && after == [after[0]] + after[1..];
      assert Updates(before, after)[1..] == Updates(before[1..], after[1..]);
      var bag' := bag - multiset{before[0]} + multiset{after[0]};
      BagTurns(bag, multiset{before[0]}, multiset{after[0]}, multiset(before[1..]), multiset(after[1..]));
      ReplayUpdates(bag', before[1..], after[1..]);
    }
  }

  /** Rows no event speaks of come through untouched. */
  lemma {:induction false} ReplayFrames(bag: multiset<Row>, rest: multiset<Row>, events: seq<RowEvent>)
    requires Replay(bag, events).Some?
    ensures Replay(bag + rest, events) == Some(Replay(bag, events).value + rest)
    decreases |events|
  {
    if events != [] {
      match events[0]
      case Insert(row) =>
        assert bag + rest + multiset{row} == bag + multiset{row} + rest;
        ReplayFrames(bag + multiset{row}, rest, events[1..]);
      case Delete(row) =>
        assert bag + rest - multiset{row} == bag - multiset{row} + rest;
        ReplayFrames(bag - multiset{row}, rest, events[1..]);
      case Update(before, after) =>
        assert bag + rest - multiset{before} + multiset{after} == bag - multiset{before} + multiset{after} + rest;
        ReplayFrames(bag - multiset{before} + multiset{after}, rest, events[1..]);
    }
  }

  // ------------------------------------------------------------------- diff

  /** Deletes, updates, inserts: the one shape every diff emits. */
  function Events(gone: seq<Row>, before: seq<Row>, after: seq<Row>, come: seq<Row>): seq<RowEvent>
    requires |before| == |after|
  {
    Deletes(gone) + Updates(before, after) + Inserts(come)
  }

  lemma {:induction false} ReplayEvents(bag: multiset<Row>, gone: seq<Row>, before: seq<Row>, after: seq<Row>,
      come: seq<Row>)
    requires |before| == |after| && multiset(gone) + multiset(before) <= bag
    ensures Replay(bag, Events(gone, before, after, come)) ==
      Some(bag - multiset(gone) - multiset(before) + multiset(after) + multiset(come))
  {
    var bag1 := bag - multiset(gone);
    var bag2 := bag1 - multiset(before) + multiset(after);
    ReplayDeletes(bag, gone);
    ReplayUpdates(bag1, before, after);
    ReplayInserts(bag2, come);
    ReplayConcat(bag, Deletes(gone), Updates(before, after));
    ReplayConcat(bag, Deletes(gone) + Updates(before, after), Inserts(come));
  }

  /** How many of the first `n` rows differ. */
  function Changed(oldRows: seq<Row>, newRows: seq<Row>, n: nat): nat
    requires n <= |oldRows| && n <= |newRows|
  {
    if n == 0 then 0 else Changed(oldRows, newRows, n - 1) + if oldRows[n - 1] != newRows[n - 1] then 1 else 0
  }

  /** Those of the first `n` rows of `rows` that differ between the two sides. */
  function Differing(rows: seq<Row>, oldRows: seq<Row>, newRows: seq<Row>, n: nat): (r: seq<Row>)
    requires n <= |rows| && n <= |oldRows| && n <= |newRows|
    ensures |r| == Changed(oldRows, newRows, n)
  {
    if n == 0 then []
    else
      var before := Differing(rows, oldRows, newRows, n - 1);
      if oldRows[n - 1] != newRows[n - 1] then before + [rows[n - 1]] else before
  }

  /** When a file is replaced whole rather than line by line. */
  predicate ReplacedWhole(oldRows: seq<Row>, newRows: seq<Row>) {
    |newRows| < |oldRows| || (|oldRows| > 1 && Changed(oldRows, newRows, |oldRows|) * 2 > |oldRows|)
  }

  function DiffRowsSpec(oldRows: seq<Row>, newRows: seq<Row>): seq<RowEvent> {
    if ReplacedWhole(oldRows, newRows) then Events(oldRows, [], [], newRows)
    else
      Events([], Differing(oldRows, oldRows, newRows, |oldRows|), Differing(newRows, oldRows, newRows, |oldRows|),
             newRows[|oldRows|..])
  }

  method FullReplace(oldRows: seq<Row>, newRows: seq<Row>) returns (events: seq<RowEvent>)
    ensures events == Events(oldRows, [], [], newRows)
  {
    events := [];
    for i := 0 to |oldRows|
      invariant events == Deletes(oldRows[..i])
    {
      events := events + [Delete(oldRows[i])];
    }
    assert oldRows[..|oldRows|] == oldRows;
    for i := 0 to |newRows|
      invariant events == Deletes(oldRows) + Inserts(newRows[..i])
    {
      events := events + [Insert(newRows[i])];
    }
    assert newRows[..|newRows|] == newRows;
  }

  /** Compare old and new rows line by line. */
  method DiffRows(oldRows: seq<Row>, newRows: seq<Row>) returns (events: seq<RowEvent>)
    ensures events == DiffRowsSpec(oldRows, newRows)
  {
    if |newRows| < |oldRows| {
      events := FullReplace(oldRows, newRows);
      return;
    }
    var overlap := |oldRows|;
    var changed := 0;
    for i := 0 to overlap
      invariant changed == Changed(oldRows, newRows, i)
    {
      if oldRows[i] != newRows[i] {
        changed := changed + 1;
      }
    }
    if overlap > 1 && changed * 2 > overlap {
      events := FullReplace(oldRows, newRows);
      return;
    }
    events := [];
    for i := 0 to overlap
      invariant events == Updates(Differing(oldRows, oldRows, newRows, i), Differing(newRows, oldRows, newRows, i))
    {
      if oldRows[i] != newRows[i] {
        events := events + [Update(oldRows[i], newRows[i])];
      }
    }
    ghost var updates := events;
    var rest := newRows[overlap..];
    for i := 0 to |rest|
      invariant events == updates + Inserts(rest[..i])
    {
      events := events + [Insert(rest[i])];
    }
    assert rest[..|rest|] == rest;
    assert Deletes([]) + updates == updates;
  }

  /** Taking `x` out of `a` and putting `y` in gives `b`. */
  ghost predicate Swaps<R>(a: multiset<R>, x: multiset<R>, y: multiset<R>, b: multiset<R>) {
    x <= a && a + y == b + x
  }

  lemma {:induction false} SwapsTurn<R(!new)>(a: multiset<R>, x: multiset<R>, y: multiset<R>, b: multiset<R>)
    requires Swaps(a, x, y, b)
    ensures a - x + y == b
  {
    forall row ensures (a - x + y)[row] == b[row] {
      assert (a + y)[row] == (b + x)[row];
    }
  }

  /** One more row on each side, the same or not. */
  lemma {:induction false} SwapsSame<R>(a: multiset<R>, x: multiset<R>, y: multiset<R>, b: multiset<R>, o: R)
    requires Swaps(a, x, y, b)
    ensures Swaps(a + multiset{o}, x, y, b + multiset{o})
  {
    assert a + multiset{o} + y == (a + y) + multiset{o};
    assert b + multiset{o} + x == (b + x) + multiset{o};
  }

  lemma {:induction false} SwapsOther<R>(a: multiset<R>, x: multiset<R>, y: multiset<R>, b: multiset<R>, o: R, w: R)
    requires Swaps(a, x, y, b)
    ensures Swaps(a + multiset{o}, x + multiset{o}, y + multiset{w}, b + multiset{w})
  {
    assert a + multiset{o} + (y + multiset{w}) == (a + y) + multiset{o} + multiset{w};
    assert b + multiset{w} + (x + multiset{o}) == (b + x) + multiset{o} + multiset{w};
  }

  lemma {:induction false} BagGrows<R>(rows: seq<R>, row: R)
    ensures multiset(rows + [row]) == multiset(rows) + multiset{row}
  {
  }

  ghost predicate BagsSwap(a: seq<Row>, x: seq<Row>, y: seq<Row>, b: seq<Row>) {
    Swaps(multiset(a), multiset(x), multiset(y), multiset(b))
  }

  lemma {:induction false} DifferingSwaps(oldRows: seq<Row>, newRows: seq<Row>, n: nat)
    requires n <= |oldRows| && n <= |newRows|
    ensures BagsSwap(oldRows[..n], Differing(oldRows, oldRows, newRows, n),
                     Differing(newRows, oldRows, newRows, n), newRows[..n])
  {
    if n > 0 {
      var x, y := Differing(oldRows, oldRows, newRows, n - 1), Differing(newRows, oldRows, newRows, n - 1);
      DifferingSwaps(oldRows, newRows, n - 1);
      DifferingStep(oldRows, newRows, n, x, y,
        Differing(oldRows, oldRows, newRows, n), Differing(newRows, oldRows, newRows, n));
    }
  }

  lemma {:induction false} BagsSwapSame(a: seq<Row>, x: seq<Row>, y: seq<Row>, b: seq<Row>, o: Row)
    requires BagsSwap(a, x, y, b)
    ensures BagsSwap(a + [o], x, y, b + [o])
  {
    SwapsSame(multiset(a), multiset(x), multiset(y), multiset(b), o);
    BagGrows(a, o);
    BagGrows(b, o);
  }

  lemma {:induction false} BagsSwapOther(a: seq<Row>, x: seq<Row>, y: seq<Row>, b: seq<Row>, o: Row, w: Row)
    requires BagsSwap(a, x, y, b)
    ensures BagsSwap(a + [o], x + [o], y + [w], b + [w])
  {
    SwapsOther(multiset(a), multiset(x), multiset(y), multiset(b), o, w);
    BagGrows(a, o);
    BagGrows(b, w);
    BagGrows(x, o);
    BagGrows(y, w);
  }

  lemma {:induction false} DifferingStep(oldRows: seq<Row>, newRows: seq<Row>, n: nat,
                      x: seq<Row>, y: seq<Row>, x': seq<Row>, y': seq<Row>)
    requires 0 < n <= |oldRows| && n <= |newRows|
    requires BagsSwap(oldRows[..n - 1], x, y, newRows[..n - 1])
    requires x' == if oldRows[n - 1] != newRows[n - 1] then x + [oldRows[n - 1]] else x
    requires y' == if oldRows[n - 1] != newRows[n - 1] then y + [newRows[n - 1]] else y
    ensures BagsSwap(oldRows[..n], x', y', newRows[..n])
  {
    var o, w, a, b := oldRows[n - 1], newRows[n - 1], oldRows[..n - 1], newRows[..n - 1];
    assert oldRows[..n] == a + [o] && newRows[..n] == b + [w];
    if o == w {
      BagsSwapSame(a, x, y, b, o);
    } else {
      BagsSwapOther(a, x, y, b, o, w);
    }
  }

  lemma {:induction false} ReplayDiffRows(oldRows: seq<Row>, newRows: seq<Row>)
    ensures Replay(multiset(oldRows), DiffRowsSpec(oldRows, newRows)) == Some(multiset(newRows))
  {
    var n, was, will := |oldRows|, multiset(oldRows), multiset(newRows);
    if ReplacedWhole(oldRows, newRows) {
      ReplayEvents(was, oldRows, [], [], newRows);
      assert was - was - multiset{} + multiset{} + will == will;
    } else {
      DifferingSwaps(oldRows, newRows, n);
      assert oldRows[..n] == oldRows && newRows == newRows[..n] + newRows[n..];
      var before, after := Differing(oldRows, oldRows, newRows, n), Differing(newRows, oldRows, newRows, n);
      ReplayEvents(was, [], before, after, newRows[n..]);
      SwapsTurn(was, multiset(before), multiset(after), multiset(newRows[..n]));
      assert was - multiset{} == was;
    }
  }

  // ------------------------------------------------- line by line, told by place

  /** The places up to `n` where the two sides differ. */
  function Places(oldRows: seq<Row>, newRows: seq<Row>, n: nat): (at: seq<nat>)
    requires n <= |oldRows| && n <= |newRows|
    ensures |at| == Changed(oldRows, newRows, n)
  {
    if n == 0 then []
    else Places(oldRows, newRows, n - 1) + if oldRows[n - 1] != newRows[n - 1] then [n - 1] else []
  }

  /** `at` lists the places up to `n` where the two sides differ, in order. */
  ghost predicate DifferAt(oldRows: seq<Row>, newRows: seq<Row>, n: nat, at: seq<nat>)
    requires n <= |oldRows| && n <= |newRows|
  {
    && (forall i | i in at :: i < n)
    && (forall j, k :: Earlier(at, j, k))
    && (forall i | 0 <= i < n :: oldRows[i] != newRows[i] <==> i in at)
  }

  predicate Earlier(at: seq<nat>, j: int, k: int) { 0 <= j < k < |at| ==> at[j] < at[k] }

  lemma {:induction false} PlacesDiffer(oldRows: seq<Row>, newRows: seq<Row>, n: nat)
    requires n <= |oldRows| && n <= |newRows|
    ensures DifferAt(oldRows, newRows, n, Places(oldRows, newRows, n))
  {
    if n > 0 {
      PlacesDiffer(oldRows, newRows, n - 1);
      var before := Places(oldRows, newRows, n - 1);
      if oldRows[n - 1] != newRows[n - 1] {
        OnePlaceMore(oldRows, newRows, n - 1, before);
      } else {
        assert Places(oldRows, newRows, n) == before + [] == before;
      }
    }
  }

  lemma {:induction false} OnePlaceMore(oldRows: seq<Row>, newRows: seq<Row>, n: nat, before: seq<nat>)
    requires n < |oldRows| && n < |newRows| && oldRows[n] != newRows[n] && DifferAt(oldRows, newRows, n, before)
    ensures DifferAt(oldRows, newRows, n + 1, before + [n])
  {
    var at := before + [n];
    forall j, k ensures Earlier(at, j, k) {
      assert Earlier(before, j, k);
      assert 0 <= j < |before| ==> before[j] in before;
    }
  }

  /** The rows that differ are those at these places. */
  lemma {:induction false} DifferingAt(rows: seq<Row>, oldRows: seq<Row>, newRows: seq<Row>, n: nat, k: nat)
    requires n <= |rows| && n <= |oldRows| && n <= |newRows| && k < Changed(oldRows, newRows, n)
    ensures Places(oldRows, newRows, n)[k] < n
    ensures Differing(rows, oldRows, newRows, n)[k] == rows[Places(oldRows, newRows, n)[k]]
  {
    if k < Changed(oldRows, newRows, n - 1) {
      DifferingAt(rows, oldRows, newRows, n - 1, k);
    }
  }

  /** Every place that differs is an update, and each new row past the old ones an
      insert, in order. */
  ghost predicate Walks(oldRows: seq<Row>, newRows: seq<Row>, at: seq<nat>, events: seq<RowEvent>)
    requires |oldRows| <= |newRows| && forall i | i in at :: i < |oldRows|
  {
    && |events| == |at| + |newRows| - |oldRows|
    && (forall k | 0 <= k < |at| :: assert at[k] in at; events[k] == Update(oldRows[at[k]], newRows[at[k]]))
    && (forall k | |at| <= k < |events| :: events[k] == Insert(newRows[|oldRows| + k - |at|]))
  }

  /** Every old row is deleted, and then every new one inserted. */
  ghost predicate Replaces(oldRows: seq<Row>, newRows: seq<Row>, events: seq<RowEvent>) {
    && |events| == |oldRows| + |newRows|
    && (forall k | 0 <= k < |oldRows| :: events[k] == Delete(oldRows[k]))
    && (forall k | |oldRows| <= k < |events| :: events[k] == Insert(newRows[k - |oldRows|]))
  }

  /**
   A file whose rows got fewer, or of whose several rows more than half differ,
   is replaced; any other is told line by line.
   */
  ghost predicate LineByLine(oldRows: seq<Row>, newRows: seq<Row>, events: seq<RowEvent>) {
    if |newRows| < |oldRows| then Replaces(oldRows, newRows, events)
    else
      exists at ::
        && DifferAt(oldRows, newRows, |oldRows|, at)
        && if |oldRows| > 1 && 2 * |at| > |oldRows| then Replaces(oldRows, newRows, events)
           else Walks(oldRows, newRows, at, events)
  }

  lemma {:induction false} ToldLineByLine(oldRows: seq<Row>, newRows: seq<Row>)
    ensures LineByLine(oldRows, newRows, DiffRowsSpec(oldRows, newRows))
  {
    if ReplacedWhole(oldRows, newRows) {
      EventsReplace(oldRows, newRows);
    }
    if |newRows| >= |oldRows| {
      PlacesDiffer(oldRows, newRows, |oldRows|);
      if !ReplacedWhole(oldRows, newRows) {
        SpecWalks(oldRows, newRows);
      }
      AtPlaces(oldRows, newRows, DiffRowsSpec(oldRows, newRows), Places(oldRows, newRows, |oldRows|));
    }
  }

  lemma {:induction false} AtPlaces(oldRows: seq<Row>, newRows: seq<Row>, events: seq<RowEvent>, at: seq<nat>)
    requires |newRows| >= |oldRows| && DifferAt(oldRows, newRows, |oldRows|, at)
    requires if |oldRows| > 1 && 2 * |at| > |oldRows| then Replaces(oldRows, newRows, events)
      else Walks(oldRows, newRows, at, events)
    ensures LineByLine(oldRows, newRows, events)
  {
  }

  lemma {:induction false} EventsReplace(oldRows: seq<Row>, newRows: seq<Row>)
    ensures Replaces(oldRows, newRows, Events(oldRows, [], [], newRows))
  {
  }

  lemma {:induction false} SpecWalks(oldRows: seq<Row>, newRows: seq<Row>)
    requires |oldRows| <= |newRows| && !ReplacedWhole(oldRows, newRows)
    requires forall i | i in Places(oldRows, newRows, |oldRows|) :: i < |oldRows|
    ensures Walks(oldRows, newRows, Places(oldRows, newRows, |oldRows|), DiffRowsSpec(oldRows, newRows))
  {
    var n, at := |oldRows|, Places(oldRows, newRows, |oldRows|);
    var before, after := Differing(oldRows, oldRows, newRows, n), Differing(newRows, oldRows, newRows, n);
    forall k | 0 <= k < |at| ensures at[k] < n && before[k] == oldRows[at[k]] && after[k] == newRows[at[k]] {
      DifferingAt(oldRows, oldRows, newRows, n, k);
      DifferingAt(newRows, oldRows, newRows, n, k);
    }
    EventsWalk(oldRows, newRows, at, before, after);
  }

  lemma {:induction false} EventsWalk(oldRows: seq<Row>, newRows: seq<Row>, at: seq<nat>, before: seq<Row>,
      after: seq<Row>)
    requires |oldRows| <= |newRows| && |at| == |before| == |after| && forall i | i in at :: i < |oldRows|
    requires forall k | 0 <= k < |at| ::
      at[k] < |oldRows| && before[k] == oldRows[at[k]] && after[k] == newRows[at[k]]
    ensures Walks(oldRows, newRows, at, Events([], before, after, newRows[|oldRows|..]))
  {
  }

  function RowsOf(side: Option<seq<Row>>): seq<Row> { if side.Some? then side.value else [] }

  /** Diff a file's rows before and after, `None` when it is new or gone. */
  method Diff(before: Option<seq<Row>>, after: Option<seq<Row>>) returns (events: seq<RowEvent>)
    ensures Replay(multiset(RowsOf(before)), events) == Some(multiset(RowsOf(after)))
    ensures before == after ==> events == []
    ensures before.None? ==> events == Inserts(RowsOf(after))
    ensures after.None? ==> events == Deletes(RowsOf(before))
    ensures before.Some? && after.Some? ==> LineByLine(before.value, after.value, events)
  {
    match (before, after) {
      case (None, None) => events := [];
      case (None, Some(rows)) =>
        ReplayInserts(multiset{}, rows);
        assert multiset{} + multiset(rows) == multiset(rows);
        events := Inserts(rows);
      case (Some(rows), None) =>
        ReplayDeletes(multiset(rows), rows);
        assert multiset(rows) - multiset(rows) == multiset{};
        events := Deletes(rows);
      case (Some(oldRows), Some(newRows)) =>
        ReplayDiffRows(oldRows, newRows);
        ToldLineByLine(oldRows, newRows);
        if oldRows == newRows {
          NothingChanged(oldRows, |oldRows|);
          assert newRows[|oldRows|..] == [];
          assert DiffRowsSpec(oldRows, newRows) == [];
        }
        events := DiffRows(oldRows, newRows);
    }
  }

  lemma {:induction false} NothingChanged(rows: seq<Row>, n: nat)
    requires n <= |rows|
    ensures Changed(rows, rows, n) == 0
  {
    if n > 0 {
      NothingChanged(rows, n - 1);
    }
  }

  /** Events for rows matched by key. */
  function DiffKeyed(removed: seq<Row>, updated: seq<(Row, Row)>, added: seq<Row>): seq<RowEvent> {
    Deletes(removed) + seq(|updated|, i requires 0 <= i < |updated| => Update(updated[i].0, updated[i].1)) +
      Inserts(added)
  }

  // --------------------------------------------------------- diff_unordered

  function Held(pool: map<Row, nat>, row: Row): nat { if row in pool then pool[row] else 0 }

  function Less(a: nat, b: nat): nat { if a < b then 0 else a - b }

  method Pool(rows: seq<Row>) returns (pool: map<Row, nat>)
    ensures forall row :: Held(pool, row) == multiset(rows)[row]
    ensures forall row | row in rows :: row in pool
  {
    pool := map[];
    for i := 0 to |rows|
      invariant forall row :: Held(pool, row) == multiset(rows[..i])[row]
      invariant forall row | row in rows[..i] :: row in pool
    {
      assert rows[..i + 1] == rows[..i] + [rows[i]];
      pool := pool[rows[i] := Held(pool, rows[i]) + 1];
    }
    assert rows[..|rows|] == rows;
  }

  /** The new rows the old ones do not cover, and what is left of the pool. */
  method TakeNew(pool0: map<Row, nat>, rows: seq<Row>) returns (pool: map<Row, nat>, unmatched: seq<Row>)
    ensures forall row :: Held(pool, row) == Less(Held(pool0, row), multiset(rows)[row])
    ensures forall row :: multiset(unmatched)[row] == Less(multiset(rows)[row], Held(pool0, row))
    ensures pool.Keys == pool0.Keys
  {
    pool, unmatched := pool0, [];
    for i := 0 to |rows|
      invariant Paired(pool0, rows[..i], pool, unmatched)
    {
      assert rows[..i + 1] == rows[..i] + [rows[i]];
      PairStep(pool0, rows[..i], pool, unmatched, rows[i]);
      if rows[i] in pool && pool[rows[i]] > 0 {
        pool := pool[rows[i] := pool[rows[i]] - 1];
      } else {
        unmatched := unmatched + [rows[i]];
      }
    }
    assert rows[..|rows|] == rows;
  }

  /** The pool and the unmatched rows once `rows` are taken from `pool0`. */
  ghost predicate Paired(pool0: map<Row, nat>, rows: seq<Row>, pool: map<Row, nat>, unmatched: seq<Row>) {
    && pool.Keys == pool0.Keys
    && (forall row :: Held(pool, row) == Less(Held(pool0, row), multiset(rows)[row]))
    && (forall row :: multiset(unmatched)[row] == Less(multiset(rows)[row], Held(pool0, row)))
  }

  lemma {:induction false} PairStep(pool0: map<Row, nat>, rows: seq<Row>, pool: map<Row, nat>, unmatched: seq<Row>,
      row: Row)
    requires Paired(pool0, rows, pool, unmatched)
    ensures Held(pool, row) > 0 ==> Paired(pool0, rows + [row], pool[row := pool[row] - 1], unmatched)
    ensures Held(pool, row) == 0 ==> Paired(pool0, rows + [row], pool, unmatched + [row])
  {
  }

  /** The old rows left over, each as often as the pool still holds it. */
  method TakeOld(pool0: map<Row, nat>, rows: seq<Row>) returns (unmatched: seq<Row>)
    requires forall row | row in rows :: row in pool0
    requires forall row :: Held(pool0, row) <= multiset(rows)[row]
    ensures forall row :: multiset(unmatched)[row] == Held(pool0, row)
  {
    var pool := pool0;
    unmatched := [];
    for i := 0 to |rows|
      invariant pool.Keys == pool0.Keys
      invariant forall row :: multiset(unmatched)[row] + Held(pool, row) == Held(pool0, row)
      invariant forall row :: Held(pool, row) <= multiset(rows[i..])[row]
    {
      assert rows[i..] == [rows[i]] + rows[i + 1..];
      assert rows[i] in rows;
      if pool[rows[i]] > 0 {
        pool := pool[rows[i] := pool[rows[i]] - 1];
        unmatched := unmatched + [rows[i]];
      }
    }
    assert rows[|rows|..] == [];
  }

  function Min(a: nat, b: nat): nat { if a < b then a else b }

  function Max(a: nat, b: nat): nat { if a < b then b else a }

  /** The number of rows after the first `k` events. */
  ghost function SizeAfter(rows: multiset<Row>, events: seq<RowEvent>, k: nat): nat
    requires k <= |events| && Replay(rows, events[..k]).Some?
  {
    |Replay(rows, events[..k]).value|
  }

  /** Every prefix replays, and holds between the two sizes of rows. */
  ghost predicate StaysBetween(rows: multiset<Row>, events: seq<RowEvent>, lo: nat, hi: nat) {
    forall k | 0 <= k <= |events| :: Replay(rows, events[..k]).Some? && lo <= SizeAfter(rows, events, k) <= hi
  }

  lemma {:induction false} PrefixReplays(rows: multiset<Row>, events: seq<RowEvent>, k: nat)
    requires Replay(rows, events).Some? && k <= |events|
    ensures Replay(rows, events[..k]).Some?
  {
    assert events == events[..k] + events[k..];
    ReplayConcat(rows, events[..k], events[k..]);
  }

  /** Each event moves the size by one or not at all. */
  function Shift(e: RowEvent): int {
    match e
    case Insert(_) => 1
    case Update(_, _) => 0
    case Delete(_) => -1
  }

  function Shifts(events: seq<RowEvent>): int {
    if events == [] then 0 else Shift(events[0]) + Shifts(events[1..])
  }

  lemma {:induction false} ReplayShifts(rows: multiset<Row>, events: seq<RowEvent>)
    requires Replay(rows, events).Some?
    ensures |Replay(rows, events).value| == |rows| + Shifts(events)
    decreases |events|
  {
    if events != [] {
      match events[0]
      case Insert(row) => ReplayShifts(rows + multiset{row}, events[1..]);
      case Delete(row) => ReplayShifts(rows - multiset{row}, events[1..]);
      case Update(before, after) => ReplayShifts(rows - multiset{before} + multiset{after}, events[1..]);
    }
  }

  /** Events that never add, or never remove, shift the size one way only. */
  lemma {:induction false} ShiftsOneWay(events: seq<RowEvent>, k: nat)
    requires k <= |events|
    ensures (forall e | e in events :: !e.Insert?) ==> Shifts(events) <= Shifts(events[..k]) <= 0
    ensures (forall e | e in events :: !e.Delete?) ==> 0 <= Shifts(events[..k]) <= Shifts(events)
    decreases |events|
  {
    if events != [] {
      assert forall e | e in events[1..] :: e in events;
      assert events[0] in events;
      if k > 0 {
        assert events[..k][1..] == events[1..][..k - 1];
        ShiftsOneWay(events[1..], k - 1);
      } else {
        ShiftsOneWay(events[1..], 0);
      }
    }
  }

  lemma {:induction false} OneWayStaysBetween(rows: multiset<Row>, events: seq<RowEvent>)
    requires Replay(rows, events).Some?
    requires (forall e | e in events :: !e.Insert?) || (forall e | e in events :: !e.Delete?)
    ensures var size := |Replay(rows, events).value|;
      StaysBetween(rows, events, Min(|rows|, size), Max(|rows|, size))
  {
    ReplayShifts(rows, events);
    forall k | 0 <= k <= |events|
      ensures Replay(rows, events[..k]).Some?
      ensures SizeAfter(rows, events, k) == |rows| + Shifts(events[..k])
    {
      PrefixReplays(rows, events, k);
      ReplayShifts(rows, events[..k]);
    }
    forall k | 0 <= k <= |events|
      ensures Shifts(events) <= Shifts(events[..k]) <= 0 || 0 <= Shifts(events[..k]) <= Shifts(events)
    {
      ShiftsOneWay(events, k);
    }
  }

  lemma {:induction false} SmallerBag(a: multiset<Row>, b: multiset<Row>)
    requires a <= b
    ensures |a| <= |b|
  {
    assert b == a + (b - a);
  }

  /** Swapping some rows for others brings two bags no nearer than that many. */
  lemma {:induction false} SwapNears(was: multiset<Row>, gone: multiset<Row>, come: multiset<Row>, will: multiset<Row>)
    ensures var next := was - gone + come;
      |was - will| <= |gone| + |next - will| && |will - was| <= |come| + |will - next|
  {
    var next := was - gone + come;
    SmallerBag(was - will, gone + (next - will));
    SmallerBag(will - was, come + (will - next));
  }

  function Gone(e: RowEvent): (rows: multiset<Row>)
    ensures |rows| <= 1
  {
    match e case Insert(_) => multiset{} case Delete(row) => multiset{row} case Update(before, _) => multiset{before}
  }

  function Come(e: RowEvent): (rows: multiset<Row>)
    ensures |rows| <= 1
  {
    match e case Insert(row) => multiset{row} case Delete(_) => multiset{} case Update(_, after) => multiset{after}
  }

  lemma {:induction false} FirstReplays(was: multiset<Row>, events: seq<RowEvent>)
    requires events != [] && Replay(was, events).Some?
    ensures Replay(was, events) == Replay(was - Gone(events[0]) + Come(events[0]), events[1..])
  {
    match events[0]
    case Insert(row) => assert was - multiset{} + multiset{row} == was + multiset{row};
    case Delete(row) => assert was - multiset{row} + multiset{} == was - multiset{row};
    case Update(_, _) =>
  }

  /** No events that turn one bag into another are fewer than pairing needs. */
  lemma {:induction false} NoFewerEvents(was: multiset<Row>, will: multiset<Row>, events: seq<RowEvent>)
    requires Replay(was, events) == Some(will)
    ensures |events| >= Max(|was - will|, |will - was|)
    decreases |events|
  {
    if events == [] {
      assert was - will == will - was == multiset{};
    } else {
      FirstReplays(was, events);
      SwapNears(was, Gone(events[0]), Come(events[0]), will);
      NoFewerEvents(was - Gone(events[0]) + Come(events[0]), will, events[1..]);
    }
  }

  /**
   The events between two bags of rows, whose order means nothing. Replaying
   them turns one into the other and never holds fewer or more rows than the two
   sizes allow, and no fewer events would do.
   */
  method DiffUnordered(oldRows: seq<Row>, newRows: seq<Row>) returns (events: seq<RowEvent>)
    ensures Replay(multiset(oldRows), events) == Some(multiset(newRows))
    ensures |events| == Max(|multiset(oldRows) - multiset(newRows)|, |multiset(newRows) - multiset(oldRows)|)
    ensures forall others | Replay(multiset(oldRows), others) == Some(multiset(newRows)) :: |events| <= |others|
    ensures events == [] <==> multiset(oldRows) == multiset(newRows)
    ensures StaysBetween(multiset(oldRows), events, Min(|oldRows|, |newRows|), Max(|oldRows|, |newRows|))
  {
    var pool := Pool(oldRows);
    var unmatchedNew, unmatchedOld;
    pool, unmatchedNew := TakeNew(pool, newRows);
    unmatchedOld := TakeOld(pool, oldRows);
    var paired := Min(|unmatchedOld|, |unmatchedNew|);
    events := Events(unmatchedOld[paired..], unmatchedOld[..paired], unmatchedNew[..paired], unmatchedNew[paired..]);
    UnmatchedReplay(oldRows, newRows, unmatchedOld, unmatchedNew, paired);
    forall others | Replay(multiset(oldRows), others) == Some(multiset(newRows)) ensures |events| <= |others| {
      NoFewerEvents(multiset(oldRows), multiset(newRows), others);
    }
  }

  lemma {:induction false} UnmatchedReplay(oldRows: seq<Row>, newRows: seq<Row>, gone: seq<Row>, come: seq<Row>,
      paired: nat)
    requires forall row :: multiset(gone)[row] == Less(multiset(oldRows)[row], multiset(newRows)[row])
    requires forall row :: multiset(come)[row] == Less(multiset(newRows)[row], multiset(oldRows)[row])
    requires paired == Min(|gone|, |come|)
    ensures var events := Events(gone[paired..], gone[..paired], come[..paired], come[paired..]);
      && Replay(multiset(oldRows), events) == Some(multiset(newRows))
      && |events| == Max(|multiset(oldRows) - multiset(newRows)|, |multiset(newRows) - multiset(oldRows)|)
      && (events == [] <==> multiset(oldRows) == multiset(newRows))
      && StaysBetween(multiset(oldRows), events, Min(|oldRows|, |newRows|), Max(|oldRows|, |newRows|))
  {
    var was, will := multiset(oldRows), multiset(newRows);
    AreLeft(was, will, gone, come);
    PairedReplay(was, will, gone, come, paired);
    OneWayStaysBetween(was, Events(gone[paired..], gone[..paired], come[..paired], come[paired..]));
  }

  /** What went unmatched on either side is what that side has more of. */
  lemma {:induction false} AreLeft(was: multiset<Row>, will: multiset<Row>, gone: seq<Row>, come: seq<Row>)
    requires forall row :: multiset(gone)[row] == Less(was[row], will[row])
    requires forall row :: multiset(come)[row] == Less(will[row], was[row])
    ensures multiset(gone) == was - will && multiset(come) == will - was
    ensures |gone| == |was - will| && |come| == |will - was|
    ensures gone == [] && come == [] <==> was == will
  {
    assert multiset(gone) == was - will && multiset(come) == will - was;
    if gone == [] && come == [] {
      forall row ensures was[row] == will[row] {
        assert (was - will)[row] == 0 && (will - was)[row] == 0;
      }
    }
  }

  lemma {:induction false} PairedReplay(was: multiset<Row>, will: multiset<Row>, gone: seq<Row>, come: seq<Row>,
      paired: nat)
    requires multiset(gone) == was - will && multiset(come) == will - was && paired == Min(|gone|, |come|)
    ensures Replay(was, Events(gone[paired..], gone[..paired], come[..paired], come[paired..])) == Some(will)
  {
    var g1, g2, c1, c2 := gone[paired..], gone[..paired], come[..paired], come[paired..];
    assert gone == g2 + g1 && come == c1 + c2;
    PairedBags(was, will, multiset(g1), multiset(g2), multiset(c1), multiset(c2));
    ReplayEvents(was, g1, g2, c1, c2);
  }

  lemma {:induction false} PairedBags<R(!new)>(was: multiset<R>, will: multiset<R>, g1: multiset<R>, g2: multiset<R>,
      c1: multiset<R>, c2: multiset<R>)
    requires g2 + g1 == was - will && c1 + c2 == will - was
    ensures g1 + g2 <= was && was - g1 - g2 + c1 + c2 == will
  {
    forall row ensures (g1 + g2)[row] <= was[row] && (was - g1 - g2 + c1 + c2)[row] == will[row] {
      assert (was - will)[row] == (g2 + g1)[row];
      assert (will - was)[row] == (c1 + c2)[row];
    }
  }
}
