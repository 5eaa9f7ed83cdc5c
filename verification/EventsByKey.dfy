/**
 What the events of a reconcile by key say (db.rs, differ.rs), told by the keys
 and cells of the rows: which row each event is about, and about which there is
 none.
 */
module EventsByKey {
  import opened Wrappers
  import opened Values
  import opened UserTable
  import opened Reconcile
  import opened Differ
  import opened ReconcileEvents
  import opened Matching

  /** Two rows hold the same, and no NULL, in the columns of a key. */
  ghost predicate SameKey(a: Row, b: Row, names: seq<string>) {
    forall name | name in names :: name in a && name in b && a[name] == b[name] != Null
  }

  /** A delete is of a row whose key is gone, an insert of a row whose key is new,
      and an update joins two unequal rows of one key. */
  ghost predicate Says(e: RowEvent, names: seq<string>, was: seq<Row>, will: seq<Row>) {
    match e
    case Delete(row) => row in was && forall other | other in will :: !SameKey(row, other, names)
    case Insert(row) => row in will && forall other | other in was :: !SameKey(row, other, names)
    case Update(before, after) => before in was && after in will && before != after && SameKey(before, after, names)
  }

  predicate About(e: RowEvent, row: Row) {
    match e
    case Delete(gone) => gone == row
    case Insert(come) => come == row
    case Update(before, after) => before == row || after == row
  }

  function Turn(e: RowEvent): nat { if e.Delete? then 0 else if e.Update? then 1 else 2 }

  ghost predicate InTurn(events: seq<RowEvent>) { forall i, j :: TurnsAt(events, i, j) }

  predicate TurnsAt(events: seq<RowEvent>, i: int, j: int) {
    0 <= i < j < |events| ==> Turn(events[i]) <= Turn(events[j])
  }

  /**
   Events by key: each says what its key did, a row on both sides has none, and
   deletes come before updates and updates before inserts.
   */
  ghost predicate ByKey(events: seq<RowEvent>, names: seq<string>, was: seq<Row>, will: seq<Row>) {
    && (forall e | e in events :: Says(e, names, was, will))
    && (forall e, row | e in events && row in was && row in will :: !About(e, row))
    && InTurn(events)
  }

  /** Between the same rows, an event is about one that stays. */
  lemma {:induction false} SaidOfOneThatStays(e: RowEvent, names: seq<string>, was: seq<Row>, will: seq<Row>)
      returns (row: Row)
    requires Says(e, names, was, will) && multiset(was) == multiset(will)
    ensures row in was && row in will && About(e, row)
  {
    row := match e case Delete(gone) => gone case Insert(come) => come case Update(before, _) => before;
    assert row in multiset(was) <==> row in was;
    assert row in multiset(will) <==> row in will;
  }

  /** Rows that only changed places say nothing. */
  lemma {:induction false} SameRowsSayNothing(events: seq<RowEvent>, names: seq<string>, was: seq<Row>,
      will: seq<Row>)
    requires ByKey(events, names, was, will) && multiset(was) == multiset(will)
    ensures events == []
  {
    if events != [] {
      var row := SaidOfOneThatStays(events[0], names, was, will);
      assert false;
    }
  }

  /** The same events say the same of the same rows in another order. */
  lemma {:induction false} SaidOfBags(events: seq<RowEvent>, names: seq<string>, was: seq<Row>, will: seq<Row>,
      was': seq<Row>, will': seq<Row>)
    requires ByKey(events, names, was, will)
    requires multiset(was) == multiset(was') && multiset(will) == multiset(will')
    ensures ByKey(events, names, was', will')
  {
    forall row ensures (row in was <==> row in was') && (row in will <==> row in will') {
      assert row in multiset(was) <==> row in multiset(was');
      assert row in multiset(will) <==> row in multiset(will');
    }
    forall e | e in events ensures Says(e, names, was', will') {
      assert Says(e, names, was, will);
    }
  }

  /** The names of a key's columns. */
  function NamesAt(columns: seq<string>, key: seq<nat>): (names: seq<string>)
    requires forall c | c in key :: c < |columns|
    ensures |names| == |key| && forall k | 0 <= k < |key| :: key[k] in key && names[k] == columns[key[k]]
  {
    seq(|key|, k requires 0 <= k < |key| => assert key[k] in key; columns[key[k]])
  }

  /** Two rows of cells hold the same, and no NULL, at the columns of a key. */
  predicate SameAt(a: Cells, b: Cells, key: seq<nat>)
    requires forall c | c in key :: c < |a| && c < |b|
  {
    forall c | c in key :: a[c] == b[c] != Null
  }

  lemma {:induction false} SameAtIsSameKey(columns: seq<string>, a: Cells, b: Cells, key: seq<nat>)
    requires |columns| == |a| == |b| && forall i, j | 0 <= i < j < |columns| :: columns[i] != columns[j]
    requires forall c | c in key :: c < |columns|
    ensures SameKey(ToMap(columns, a), ToMap(columns, b), NamesAt(columns, key)) <==> SameAt(a, b, key)
  {
    var names := NamesAt(columns, key);
    ToMapReads(columns, a);
    ToMapReads(columns, b);
    if SameKey(ToMap(columns, a), ToMap(columns, b), names) {
      forall c | c in key ensures a[c] == b[c] != Null {
        var k :| 0 <= k < |key| && key[k] == c;
        assert names[k] in names;
      }
    }
    if SameAt(a, b, key) {
      forall name | name in names ensures name in ToMap(columns, a) && name in ToMap(columns, b)
        && ToMap(columns, a)[name] == ToMap(columns, b)[name] != Null
      {
        var k :| 0 <= k < |names| && names[k] == name;
        assert key[k] in key;
      }
    }
  }

  // ------------------------------------------------------------ plans by key

  /** A plan by the key of a UNIQUE index or the PRIMARY KEY, which every wanted
      row fills, and whose end state repeats no key. */
  ghost predicate PlanByKey(p: Plan, s: Schema, t: Rows, stored: seq<Held>, rows: Shaped, key: seq<nat>, g: Group) {
    && ValidRows(s, t) && ReadFrom(stored, t) && ValidShape(s, rows) && ValidKey(s, Some(key))
    && p == PlanOf(s, t, stored, rows, Some(key)) && p.Valid()
    && g in s.groups && g.columns == key
    && (forall i, c | 0 <= i < |rows.cells| && c in key :: rows.cells[i][c] != Null)
    && ValidRows(s, p.End())
  }

  /** A row's cells in the key's columns are the same, and set. */
  lemma {:induction false} MatchIsSame(p: Plan, s: Schema, t: Rows, stored: seq<Held>, rows: Shaped, key: seq<nat>,
      g: Group, i: nat, at: nat)
    requires PlanByKey(p, s, t, stored, rows, key, g) && i < |p.claims| && at < |p.stored|
    ensures Match(p, Some(key), i, at) <==> SameAt(p.stored[at].cells, p.wanted.cells[i], key)
  {
    assert forall c | c in key :: p.wanted.cells[i][c] == s.store(c, rows.cells[i][c]) != Null;
  }

  lemma {:induction false} SameAtClashes(g: Group, a: Cells, b: Cells)
    requires forall c | c in g.columns :: c < |a| && c < |b|
    requires SameAt(a, b, g.columns)
    ensures Clash(g, a, b)
  {
    KeysAlike(a, b, g.columns);
  }

  /** No two stored rows hold one key. */
  lemma {:induction false} StoredOnce(p: Plan, s: Schema, t: Rows, stored: seq<Held>, rows: Shaped, key: seq<nat>,
      g: Group, a: nat, b: nat)
    requires PlanByKey(p, s, t, stored, rows, key, g) && a < |p.stored| && b < |p.stored|
    requires SameAt(p.stored[a].cells, p.stored[b].cells, key)
    ensures a == b
  {
    SameAtClashes(g, p.stored[a].cells, p.stored[b].cells);
    assert UserTable.Differ(s, t, g, p.stored[a].id, p.stored[b].id);
    SameHeld(p.stored, t, a, b);
  }

  /** A final row holds the key it was wanted with. */
  lemma {:induction false} FinalKey(p: Plan, s: Schema, t: Rows, stored: seq<Held>, rows: Shaped, key: seq<nat>,
      g: Group, i: nat)
    requires PlanByKey(p, s, t, stored, rows, key, g) && i < |p.claims|
    ensures SameAt(p.Final(i), p.wanted.cells[i], key)
  {
    if p.claims[i].Some? {
      ClaimedMatch(s, t, stored, rows, Some(key), i);
      MatchIsSame(p, s, t, stored, rows, key, g, i, p.claims[i].value);
    } else {
      assert forall c | c in key :: p.wanted.cells[i][c] == s.store(c, rows.cells[i][c]) != Null;
    }
  }

  /** No two final rows hold one key. */
  lemma {:induction false} FinalsOnce(p: Plan, s: Schema, t: Rows, stored: seq<Held>, rows: Shaped, key: seq<nat>,
      g: Group, i: nat, j: nat)
    requires PlanByKey(p, s, t, stored, rows, key, g) && i < |p.claims| && j < |p.claims|
    requires SameAt(p.Final(i), p.Final(j), key)
    ensures i == j
  {
    EndIsWanted(p);
    SameAtClashes(g, p.Final(i), p.Final(j));
    assert UserTable.Differ(s, p.End(), g, p.Placed(i), p.Placed(j));
    PlacedIsInjective(p, i, j);
  }

  /** A stored row is claimed exactly when a wanted row has its key. */
  lemma {:induction false} ClaimedByKey(p: Plan, s: Schema, t: Rows, stored: seq<Held>, rows: Shaped, key: seq<nat>,
      g: Group, i: nat, at: nat)
    requires PlanByKey(p, s, t, stored, rows, key, g) && i < |p.claims| && at < |p.stored|
    requires SameAt(p.stored[at].cells, p.Final(i), key)
    ensures p.claims[i] == Some(at)
  {
    FinalKey(p, s, t, stored, rows, key, g, i);
    MatchIsSame(p, s, t, stored, rows, key, g, i, at);
    if p.claims[i].Some? {
      var b := p.claims[i].value;
      ClaimedMatch(s, t, stored, rows, Some(key), i);
      MatchIsSame(p, s, t, stored, rows, key, g, i, b);
      StoredOnce(p, s, t, stored, rows, key, g, at, b);
    } else {
      UnclaimedOnlyWhenNoneLeft(s, t, stored, rows, Some(key), i, at);
      var j :| 0 <= j < |rows.cells| && j != i && p.claims[j] == Some(at);
      ClaimedMatch(s, t, stored, rows, Some(key), j);
      MatchIsSame(p, s, t, stored, rows, key, g, j, at);
      FinalKey(p, s, t, stored, rows, key, g, j);
      FinalsOnce(p, s, t, stored, rows, key, g, i, j);
    }
  }

  // ------------------------------------------------------------- their events

  lemma {:induction false} MapsSame(p: Plan, a: Cells, b: Cells, key: seq<nat>)
    requires p.Valid() && |a| == |b| == |p.schema.columns| && forall c | c in key :: c < |a|
    ensures SameKey(ToMap(p.schema.columns, a), ToMap(p.schema.columns, b), NamesAt(p.schema.columns, key)) <==>
      SameAt(a, b, key)
  {
    SameAtIsSameKey(p.schema.columns, a, b, key);
  }

  lemma {:induction false} RemovedSays(p: Plan, s: Schema, t: Rows, stored: seq<Held>, rows: Shaped, key: seq<nat>,
      g: Group, at: nat)
    requires PlanByKey(p, s, t, stored, rows, key, g) && at < |p.stored| && Some(at) !in p.claims
    ensures Says(Delete(StoredMaps(p)[at]), NamesAt(s.columns, key), StoredMaps(p), FinalMaps(p))
  {
    var row := StoredMaps(p)[at];
    forall other | other in FinalMaps(p) ensures !SameKey(row, other, NamesAt(s.columns, key)) {
      var i :| 0 <= i < |p.claims| && FinalMaps(p)[i] == other;
      MapsSame(p, p.stored[at].cells, p.Final(i), key);
      if SameAt(p.stored[at].cells, p.Final(i), key) {
        ClaimedByKey(p, s, t, stored, rows, key, g, i, at);
      }
    }
  }

  lemma {:induction false} AddedSays(p: Plan, s: Schema, t: Rows, stored: seq<Held>, rows: Shaped, key: seq<nat>,
      g: Group, i: nat)
    requires PlanByKey(p, s, t, stored, rows, key, g) && i < |p.claims| && p.claims[i].None?
    ensures Says(Insert(FinalMaps(p)[i]), NamesAt(s.columns, key), StoredMaps(p), FinalMaps(p))
  {
    var row := FinalMaps(p)[i];
    forall other | other in StoredMaps(p) ensures !SameKey(row, other, NamesAt(s.columns, key)) {
      var at :| 0 <= at < |p.stored| && StoredMaps(p)[at] == other;
      MapsSame(p, p.Final(i), p.stored[at].cells, key);
      if SameAt(p.Final(i), p.stored[at].cells, key) {
        ClaimedByKey(p, s, t, stored, rows, key, g, i, at);
      }
    }
  }

  /** A changed row differs in some column the wanted rows carry. */
  lemma {:induction false} ChangedDiffers(p: Plan, i: nat)
    requires p.Valid() && i < |p.claims| && p.Changes(i)
    ensures p.stored[p.claims[i].value].cells != p.Final(i)
  {
    KeysAlike(p.stored[p.claims[i].value].cells, p.wanted.cells[i], Compared(p.wanted.emitted));
  }

  lemma {:induction false} MapsTellApart(columns: seq<string>, a: Cells, b: Cells)
    requires |columns| == |a| == |b| && forall i, j | 0 <= i < j < |columns| :: columns[i] != columns[j]
    ensures ToMap(columns, a) == ToMap(columns, b) ==> a == b
  {
    ToMapReads(columns, a);
    ToMapReads(columns, b);
    if ToMap(columns, a) == ToMap(columns, b) {
      assert forall c | 0 <= c < |columns| :: a[c] == ToMap(columns, a)[columns[c]] == b[c];
    }
  }

  lemma {:induction false} ChangedSays(p: Plan, s: Schema, t: Rows, stored: seq<Held>, rows: Shaped, key: seq<nat>,
      g: Group, i: nat)
    requires PlanByKey(p, s, t, stored, rows, key, g) && i < |p.claims| && p.Changes(i)
    ensures Says(Update(StoredMaps(p)[p.claims[i].value], FinalMaps(p)[i]), NamesAt(s.columns, key), StoredMaps(p),
      FinalMaps(p))
  {
    var b := p.claims[i].value;
    ClaimedMatch(s, t, stored, rows, Some(key), i);
    MatchIsSame(p, s, t, stored, rows, key, g, i, b);
    FinalKey(p, s, t, stored, rows, key, g, i);
    MapsSame(p, p.stored[b].cells, p.Final(i), key);
    ChangedDiffers(p, i);
    MapsTellApart(s.columns, p.stored[b].cells, p.Final(i));
  }

  ghost predicate AllSay(events: seq<RowEvent>, names: seq<string>, was: seq<Row>, will: seq<Row>) {
    forall e | e in events :: Says(e, names, was, will)
  }

  lemma {:induction false} DeletesSay(p: Plan, s: Schema, t: Rows, stored: seq<Held>, rows: Shaped, key: seq<nat>,
      g: Group)
    requires PlanByKey(p, s, t, stored, rows, key, g)
    ensures AllSay(Deletes(ChangesOf(p, true).removed), NamesAt(s.columns, key), StoredMaps(p), FinalMaps(p))
  {
    var rows', removed := ChangesOf(p, true).removed, p.RemovedUpTo(|p.stored|);
    forall e | e in Deletes(rows') ensures Says(e, NamesAt(s.columns, key), StoredMaps(p), FinalMaps(p)) {
      var k :| 0 <= k < |rows'| && e == Deletes(rows')[k];
      RemovedSays(p, s, t, stored, rows, key, g, removed[k]);
    }
  }

  lemma {:induction false} UpdatesSay(p: Plan, s: Schema, t: Rows, stored: seq<Held>, rows: Shaped, key: seq<nat>,
      g: Group)
    requires PlanByKey(p, s, t, stored, rows, key, g)
    ensures var changed := p.ChangedUpTo(|p.claims|);
      AllSay(Updates(Before(p, changed), After(p, changed)), NamesAt(s.columns, key), StoredMaps(p), FinalMaps(p))
  {
    var changed := p.ChangedUpTo(|p.claims|);
    var events := Updates(Before(p, changed), After(p, changed));
    forall e | e in events ensures Says(e, NamesAt(s.columns, key), StoredMaps(p), FinalMaps(p)) {
      var k :| 0 <= k < |changed| && e == events[k];
      ChangedSays(p, s, t, stored, rows, key, g, changed[k]);
    }
  }

  lemma {:induction false} InsertsSay(p: Plan, s: Schema, t: Rows, stored: seq<Held>, rows: Shaped, key: seq<nat>,
      g: Group)
    requires PlanByKey(p, s, t, stored, rows, key, g)
    ensures AllSay(Inserts(ChangesOf(p, true).added), NamesAt(s.columns, key), StoredMaps(p), FinalMaps(p))
  {
    var rows', added := ChangesOf(p, true).added, p.AddedUpTo(|p.claims|);
    forall e | e in Inserts(rows') ensures Says(e, NamesAt(s.columns, key), StoredMaps(p), FinalMaps(p)) {
      var k :| 0 <= k < |rows'| && e == Inserts(rows')[k];
      AddedSays(p, s, t, stored, rows, key, g, added[k]);
    }
  }

  lemma {:induction false} JoinedSay(a: seq<RowEvent>, b: seq<RowEvent>, c: seq<RowEvent>, names: seq<string>,
      was: seq<Row>, will: seq<Row>)
    requires AllSay(a, names, was, will) && AllSay(b, names, was, will) && AllSay(c, names, was, will)
    ensures AllSay(a + b + c, names, was, will)
  {
  }

  lemma {:induction false} EachSays(p: Plan, s: Schema, t: Rows, stored: seq<Held>, rows: Shaped, key: seq<nat>,
      g: Group)
    requires PlanByKey(p, s, t, stored, rows, key, g)
    ensures var c := ChangesOf(p, true);
      AllSay(DiffKeyed(c.removed, c.updated, c.added), NamesAt(s.columns, key), StoredMaps(p), FinalMaps(p))
  {
    var c, changed := ChangesOf(p, true), p.ChangedUpTo(|p.claims|);
    DeletesSay(p, s, t, stored, rows, key, g);
    UpdatesSay(p, s, t, stored, rows, key, g);
    InsertsSay(p, s, t, stored, rows, key, g);
    JoinedSay(Deletes(c.removed), Updates(Before(p, changed), After(p, changed)), Inserts(c.added),
      NamesAt(s.columns, key), StoredMaps(p), FinalMaps(p));
    ReconcileEvents.KeyedEvents(p, true);
  }

  lemma {:induction false} KeyedInTurn(removed: seq<Row>, updated: seq<(Row, Row)>, added: seq<Row>)
    ensures InTurn(DiffKeyed(removed, updated, added))
  {
    var events := DiffKeyed(removed, updated, added);
    forall i | 0 <= i < |events|
      ensures Turn(events[i]) == if i < |removed| then 0 else if i < |removed| + |updated| then 1 else 2
    {
    }
  }

  /** No two of the rows hold one key. */
  ghost predicate KeyedOnce(rows: seq<Row>, names: seq<string>) {
    forall a, b | a in rows && b in rows && SameKey(a, b, names) :: a == b
  }

  lemma {:induction false} StoredKeyedOnce(p: Plan, s: Schema, t: Rows, stored: seq<Held>, rows: Shaped, key: seq<nat>,
      g: Group)
    requires PlanByKey(p, s, t, stored, rows, key, g)
    ensures KeyedOnce(StoredMaps(p), NamesAt(s.columns, key))
  {
    var was, names := StoredMaps(p), NamesAt(s.columns, key);
    forall a, b | a in was && b in was && SameKey(a, b, names) ensures a == b {
      var i :| 0 <= i < |p.stored| && was[i] == a;
      var j :| 0 <= j < |p.stored| && was[j] == b;
      MapsSame(p, p.stored[i].cells, p.stored[j].cells, key);
      StoredOnce(p, s, t, stored, rows, key, g, i, j);
    }
  }

  lemma {:induction false} FinalsKeyedOnce(p: Plan, s: Schema, t: Rows, stored: seq<Held>, rows: Shaped, key: seq<nat>,
      g: Group)
    requires PlanByKey(p, s, t, stored, rows, key, g)
    ensures KeyedOnce(FinalMaps(p), NamesAt(s.columns, key))
  {
    var will, names := FinalMaps(p), NamesAt(s.columns, key);
    forall a, b | a in will && b in will && SameKey(a, b, names) ensures a == b {
      var i :| 0 <= i < |p.claims| && will[i] == a;
      var j :| 0 <= j < |p.claims| && will[j] == b;
      MapsSame(p, p.Final(i), p.Final(j), key);
      FinalsOnce(p, s, t, stored, rows, key, g, i, j);
    }
  }

  /** Every final row fills the key. */
  lemma {:induction false} FinalsFill(p: Plan, s: Schema, t: Rows, stored: seq<Held>, rows: Shaped, key: seq<nat>,
      g: Group)
    requires PlanByKey(p, s, t, stored, rows, key, g)
    ensures forall row | row in FinalMaps(p) :: SameKey(row, row, NamesAt(s.columns, key))
  {
    var will, names := FinalMaps(p), NamesAt(s.columns, key);
    forall row | row in will ensures SameKey(row, row, names) {
      var i :| 0 <= i < |p.claims| && will[i] == row;
      FinalKey(p, s, t, stored, rows, key, g, i);
      MapsSame(p, p.Final(i), p.Final(i), key);
    }
  }

  /** What each event says leaves none about a row that stays. */
  lemma {:induction false} StayingUntold(e: RowEvent, row: Row, names: seq<string>, was: seq<Row>, will: seq<Row>)
    requires Says(e, names, was, will) && KeyedOnce(was, names) && KeyedOnce(will, names)
    requires forall other | other in will :: SameKey(other, other, names)
    requires row in was && row in will
    ensures !About(e, row)
  {
    if e.Update? {
      assert SameKey(e.before, e.after, names);
    } else {
      assert SameKey(row, row, names);
    }
  }

  /** The events of a reconcile by key say what each key did. */
  lemma {:induction false} KeyedEventsSay(p: Plan, s: Schema, t: Rows, stored: seq<Held>, rows: Shaped, key: seq<nat>,
      g: Group)
    requires PlanByKey(p, s, t, stored, rows, key, g)
    ensures var c := ChangesOf(p, true);
      ByKey(DiffKeyed(c.removed, c.updated, c.added), NamesAt(s.columns, key), StoredMaps(p), FinalMaps(p))
  {
    var c, names := ChangesOf(p, true), NamesAt(s.columns, key);
    var events := DiffKeyed(c.removed, c.updated, c.added);
    EachSays(p, s, t, stored, rows, key, g);
    StoredKeyedOnce(p, s, t, stored, rows, key, g);
    FinalsKeyedOnce(p, s, t, stored, rows, key, g);
    FinalsFill(p, s, t, stored, rows, key, g);
    forall e, row | e in events && row in StoredMaps(p) && row in FinalMaps(p) ensures !About(e, row) {
      StayingUntold(e, row, names, StoredMaps(p), FinalMaps(p));
    }
    KeyedInTurn(c.removed, c.updated, c.added);
  }
}
