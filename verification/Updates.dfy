/**
 How a changed file reaches its table (lib.rs): one transaction, and the events
 that tell what it changed.
 */
module Updates {
  import opened Wrappers
  import opened Values
  import opened UserTable
  import opened Reconcile
  import opened Ledger
  import opened Differ
  import opened ReconcileEvents
  import opened EventsByKey
  import opened Index

  lemma {:induction false} FinalsRead(p: Plan)
    requires p.Valid()
    ensures Readable(p.schema.columns, p.End(), PlacedAll(p))
    ensures MapsAt(p.schema.columns, p.End(), PlacedAll(p)) == FinalMaps(p)
  {
    EndIsWanted(p);
  }

  lemma {:induction false} StoredRead(p: Plan, ids: seq<nat>)
    requires p.Valid() && forall k | 0 <= k < |ids| :: ids[k] in p.start
    requires p.stored == HeldAt(p.start, ids)
    ensures StoredMaps(p) == MapsAt(p.schema.columns, p.start, ids)
  {
  }

  /** When the rows carry every column, each ends exactly as wanted. */
  lemma {:induction false} FinalsAreWanted(p: Plan)
    requires p.Valid() && forall c | 0 <= c < |p.wanted.emitted| :: p.wanted.emitted[c]
    ensures FinalMaps(p) == ToMaps(p.schema.columns, p.wanted.cells)
  {
    forall i | 0 <= i < |p.claims| ensures p.Final(i) == p.wanted.cells[i] {
    }
  }

  /** The rowids the next `n` rows receive. */
  function Next(base: nat, n: nat): (ids: seq<nat>)
    ensures |ids| == n
  {
    seq(n, k requires 0 <= k < n => base + 1 + k)
  }

  /** `t` holds `cells`, as stored, at `ids`. */
  ghost predicate HoldsAt(s: Schema, t: Rows, ids: seq<nat>, cells: seq<Cells>) {
    |ids| == |cells| && forall k | 0 <= k < |ids| :: ids[k] in t && t[ids[k]] == Stored(s, cells[k])
  }

  lemma {:induction false} AppendedHolds(s: Schema, t: Rows, cells: seq<Cells>)
    ensures HoldsAt(s, Appended(s, t, cells, |cells|), Next(MaxId(t.Keys), |cells|), cells)
    ensures Agrees(t, Appended(s, t, cells, |cells|))
  {
    AppendedKeys(s, t, cells, |cells|);
  }

  /** The file's rows once they are inserted one by one. */
  lemma {:induction false} AppendedRead(s: Schema, ids: seq<nat>, cells: seq<Cells>, t': Rows)
    requires HoldsAt(s, t', ids, cells)
    requires forall i | 0 <= i < |cells| :: Fits(s, cells[i]) && |cells[i]| == |s.columns|
    ensures Readable(s.columns, t', ids)
    ensures MapsAt(s.columns, t', ids) == ToMaps(s.columns, cells)
  {
    forall k | 0 <= k < |ids| ensures t'[ids[k]] == cells[k] {
      StoredTwice(s, cells[k]);
    }
  }

  lemma {:induction false} StoredTwice(s: Schema, cells: Cells)
    requires Fits(s, cells)
    ensures Stored(s, cells) == cells
  {
  }

  /** One more row recorded after `placed`. */
  lemma {:induction false} OwnGrows(l: Ledger, file: File, base: nat, n: nat, recorded: Ledger, id: nat)
    requires recorded == Own(l, file, Next(base, n)) && id == base + n + 1
    ensures Map(recorded, file, n, id) == Own(l, file, Next(base, n + 1))
  {
    assert Enumerated(file, Next(base, n)) + [Mapping(file, n, id)] == Enumerated(file, Next(base, n + 1));
  }

  /** Insert the rows of `file` one by one, each under its index. */
  method InsertEachRow(index: TableIndex, cells: seq<Cells>, file: File, ghost l: Ledger)
      returns (failed: Option<Constraint>)
    requires index.store.Valid() && forall i | 0 <= i < |cells| :: |cells[i]| == |index.store.schema.columns|
    requires index.ledger == Own(l, file, [])
    modifies index, index.store
    ensures index.store.Valid()
    ensures failed.None? <==>
      ValidRows(index.store.schema, Appended(index.store.schema, old(index.store.rows), cells, |cells|))
    ensures failed.None? ==>
      && index.store.rows == Appended(index.store.schema, old(index.store.rows), cells, |cells|)
      && index.ledger == Own(l, file, Next(MaxId(old(index.store.rows).Keys), |cells|))
  {
    failed := None;
    ghost var start := index.store.rows;
    assert Next(MaxId(start.Keys), 0) == [];
    for i := 0 to |cells|
      invariant index.store.Valid() && failed.None?
      invariant index.store.rows == Appended(index.store.schema, start, cells, i)
      invariant index.ledger == Own(l, file, Next(MaxId(start.Keys), i))
    {
      failed := InsertRowAt(index, cells, i, file, start, l);
      if failed.Some? {
        return;
      }
    }
  }

  method InsertRowAt(index: TableIndex, cells: seq<Cells>, i: nat, file: File, ghost start: Rows, ghost l: Ledger)
    returns (failed: Option<Constraint>)
    requires index.store.Valid() && i < |cells| && |cells[i]| == |index.store.schema.columns|
    requires index.store.rows == Appended(index.store.schema, start, cells, i)
    requires index.ledger == Own(l, file, Next(MaxId(start.Keys), i))
    modifies index, index.store
    ensures index.store.Valid()
    ensures failed.None? ==>
      && index.store.rows == Appended(index.store.schema, start, cells, i + 1)
      && index.ledger == Own(l, file, Next(MaxId(start.Keys), i + 1))
    ensures failed.Some? ==> !ValidRows(index.store.schema, Appended(index.store.schema, start, cells, |cells|))
  {
    AppendedTop(index.store.schema, start, cells, i);
    OwnGrows(l, file, MaxId(start.Keys), i, index.ledger, MaxId(index.store.rows.Keys) + 1);
    failed := index.InsertRowStmts(cells[i], file, i);
    if failed.Some? {
      RefusedMidway(index.store.schema, start, cells, i + 1);
    }
  }

  /** The rows the table holds once `rows` replace those of `file`. */
  ghost function Replaced(index: TableIndex, rows: Shaped, file: File): Rows
    requires index.Valid() && ValidShape(index.store.schema, rows)
    reads index, index.store
  {
    var s := index.store.schema;
    var cells := AsStored(s, rows).cells;
    Appended(s, index.store.rows - index.Owned(file), cells, |cells|)
  }

  /** Whether `file`'s rows can be made equal `rows`: the table either takes
      the edits, or holds the rows anew beside what other files own. */
  ghost predicate Acceptable(index: TableIndex, rows: Shaped, file: File)
    requires index.Valid() && ValidShape(index.store.schema, rows)
    reads index, index.store
  {
    var s, key := index.store.schema, RowKey(index.candidates, rows);
    if key.Some? then
      FilePlanIsValid(s, index.store.rows, index.ledger, file, rows, key);
      Reachable(index.PlanFor(file, rows, key))
    else
      ValidRows(s, Replaced(index, rows, file))
  }

  /** The rows `file` reads back as once `rows` are applied. */
  ghost function Applied(index: TableIndex, rows: Shaped, file: File): seq<Row>
    requires index.Valid() && ValidShape(index.store.schema, rows)
    reads index, index.store
  {
    var s, key := index.store.schema, RowKey(index.candidates, rows);
    if key.Some? then
      FilePlanIsValid(s, index.store.rows, index.ledger, file, rows, key);
      FinalMaps(index.PlanFor(file, rows, key))
    else ToMaps(s.columns, AsStored(s, rows).cells)
  }

  /** Delete the rows of `file` and insert `cells` afresh. */
  method ReplaceRows(index: TableIndex, cells: seq<Cells>, file: File) returns (failed: Option<Constraint>)
    requires index.Valid()
    requires forall i | 0 <= i < |cells| :: |cells[i]| == |index.store.schema.columns|
    modifies index, index.store
    ensures index.store.Valid()
    ensures var all := Appended(index.store.schema, old(index.store.rows) - old(index.Owned(file)), cells, |cells|);
      && (failed.None? <==> ValidRows(index.store.schema, all))
      && (failed.None? ==> index.store.rows == all)
    ensures failed.None? ==>
      index.ledger ==
        Own(old(index.ledger), file, Next(MaxId((old(index.store.rows) - old(index.Owned(file))).Keys), |cells|))
  {
    ghost var l := index.ledger;
    var _ := index.DeleteRowsByFile(file);
    assert index.ledger == Own(l, file, []) by {
      assert Drop(l, file).mapping + [] == Drop(l, file).mapping;
    }
    failed := InsertEachRow(index, cells, file, l);
  }

  /** `ReplaceRows` in one transaction. */
  method ReplaceAtomically(index: TableIndex, cells: seq<Cells>, file: File) returns (failed: Option<Constraint>)
    requires index.Valid()
    requires forall i | 0 <= i < |cells| ::
      Fits(index.store.schema, cells[i]) && |cells[i]| == |index.store.schema.columns|
    modifies index, index.store
    ensures index.Valid()
    ensures var all := Appended(index.store.schema, old(index.store.rows) - old(index.Owned(file)), cells, |cells|);
      && (failed.None? <==> ValidRows(index.store.schema, all))
      && (failed.None? ==> index.store.rows == all)
    ensures failed.None? ==> index.FileRows(file) == ToMaps(index.store.schema.columns, cells)
    ensures failed.Some? ==> index.store.rows == old(index.store.rows) && index.ledger == old(index.ledger)
    ensures OnlyTouches(old(index.store.rows), old(index.ledger), index.store.rows, index.ledger, file)
  {
    var saved, recorded := index.store.rows, index.ledger;
    failed := ReplaceRows(index, cells, file);
    if failed.Some? {
      index.store.Rollback(saved);
      index.ledger := recorded;
    } else {
      ReplacedSettles(index.store.schema, saved, recorded, file, cells, index.store.rows, index.ledger);
    }
  }

  /** What a file's rows become when they fill no key: delete, insert, diff. */
  method Replace(index: TableIndex, rows: Shaped, file: File) returns (r: Result<seq<RowEvent>, Constraint>)
    requires index.Valid() && ValidShape(index.store.schema, rows)
    modifies index, index.store
    ensures index.Valid()
    ensures r.Success? <==> ValidRows(index.store.schema, old(Replaced(index, rows, file)))
    ensures r.Success? ==> index.store.rows == old(Replaced(index, rows, file))
    ensures r.Success? ==>
      index.FileRows(file) == ToMaps(index.store.schema.columns, AsStored(index.store.schema, rows).cells)
    ensures r.Success? ==> Replay(multiset(old(index.FileRows(file))), r.value) == Some(multiset(index.FileRows(file)))
    ensures r.Success? ==> LineByLine(old(index.FileRows(file)), index.FileRows(file), r.value)
    ensures r.Success? && old(index.FileRows(file)) == index.FileRows(file) ==> r.value == []
    ensures r.Failure? ==> index.store.rows == old(index.store.rows) && index.ledger == old(index.ledger)
    ensures OnlyTouches(old(index.store.rows), old(index.ledger), index.store.rows, index.ledger, file)
  {
    var oldRows := index.GetRowsByFile(file);
    var wanted := AsStored(index.store.schema, rows);
    AsStoredFits(index.store.schema, rows);
    var failed := ReplaceAtomically(index, wanted.cells, file);
    var events := Diff(Some(oldRows), Some(ToMaps(index.store.schema.columns, wanted.cells)));
    r := if failed.Some? then Failure(failed.value) else Success(events);
  }

  lemma {:induction false} ReplacedSettles(s: Schema, t: Rows, l: Ledger, file: File, cells: seq<Cells>, t': Rows,
      l': Ledger)
    requires Exact(t.Keys, l)
    requires forall i | 0 <= i < |cells| :: Fits(s, cells[i]) && |cells[i]| == |s.columns|
    requires var left := t - OwnedBy(t.Keys, l, file);
      t' == Appended(s, left, cells, |cells|) && l' == Own(l, file, Next(MaxId(left.Keys), |cells|))
    ensures Exact(t'.Keys, l')
    ensures Readable(s.columns, t', Read(t'.Keys, l', file))
    ensures MapsAt(s.columns, t', Read(t'.Keys, l', file)) == ToMaps(s.columns, cells)
    ensures OnlyTouches(t, l, t', l', file)
  {
    var left := t - OwnedBy(t.Keys, l, file);
    var placed := Next(MaxId(left.Keys), |cells|);
    ReplacedMoves(s, t, l, file, cells);
    OwnKeepsExact(t.Keys, l, file, placed, t'.Keys);
    OwnReads(t'.Keys, l, file, placed);
    AppendedHolds(s, left, cells);
    AppendedRead(s, placed, cells, t');
    forall other | other != file ensures OwnedBy(t'.Keys, l', other) == OwnedBy(t.Keys, l, other) {
      OwnOwnedBy(t.Keys, l, file, placed, t'.Keys, other);
    }
  }

  lemma {:induction false} ReplacedMoves(s: Schema, t: Rows, l: Ledger, file: File, cells: seq<Cells>)
    requires Exact(t.Keys, l)
    ensures var left := t - OwnedBy(t.Keys, l, file);
      Moves(t.Keys, l, file, Next(MaxId(left.Keys), |cells|), Appended(s, left, cells, |cells|).Keys)
  {
    var left := t - OwnedBy(t.Keys, l, file);
    var placed := Next(MaxId(left.Keys), |cells|);
    AppendedKeys(s, left, cells, |cells|);
    NextMembers(MaxId(left.Keys), |cells|);
    assert left.Keys == t.Keys - OwnedBy(t.Keys, l, file);
  }

  lemma {:induction false} NextMembers(base: nat, n: nat)
    ensures forall id :: id in Next(base, n) <==> base < id <= base + n
  {
    forall id | base < id <= base + n ensures id in Next(base, n) {
      assert Next(base, n)[id - base - 1] == id;
    }
  }

  /** A reconcile by key leaves the final rows to read, and its events replay
      the file's rows to them. */
  lemma {:induction false} EditReads(p: Plan, l: Ledger, file: File, t': Rows, ids: seq<nat>, was: seq<Row>,
      c: RowChanges)
    requires FilePlan(p, l, file) && c == ChangesOf(p, true) && was == StoredMaps(p)
    requires t' == p.End() && ids == PlacedAll(p)
    ensures Readable(p.schema.columns, t', ids) && MapsAt(p.schema.columns, t', ids) == FinalMaps(p)
    ensures Replay(multiset(was), DiffKeyed(c.removed, c.updated, c.added)) == Some(multiset(FinalMaps(p)))
  {
    FinalsRead(p);
    KeyedEventsReplay(p, true);
  }

  /** The key rows are matched by is that of a UNIQUE index or the PRIMARY KEY. */
  lemma {:induction false} KeyIsAGroup(s: Schema, candidates: seq<seq<Option<nat>>>, rows: Shaped) returns (g: Group)
    requires ValidShape(s, rows) && FromGroups(s, candidates) && RowKey(candidates, rows).Some?
    ensures g in s.groups && g.columns == RowKey(candidates, rows).value
  {
    var k: nat :| FirstFilled(candidates, rows, k) && RowKey(candidates, rows).value == Positions(candidates[k]);
    assert candidates[k] in candidates && Plain(candidates[k]);
    g :| g in s.groups && g.columns == Positions(candidates[k]);
  }

  /** The names of the columns rows are matched by. */
  function KeyNames(s: Schema, candidates: seq<seq<Option<nat>>>, rows: Shaped): (names: seq<string>)
    requires |rows.emitted| == |s.columns|
    requires forall i | 0 <= i < |rows.cells| :: |rows.cells[i]| == |s.columns|
    requires RowKey(candidates, rows).Some?
  {
    NamesAt(s.columns, RowKey(candidates, rows).value)
  }

  /** The events of a reachable reconcile by key say what each key did. */
  lemma {:induction false} ReachedSays(p: Plan, s: Schema, t: Rows, stored: seq<Held>, rows: Shaped,
      candidates: seq<seq<Option<nat>>>)
    requires ValidRows(s, t) && ReadFrom(stored, t) && ValidShape(s, rows) && FromGroups(s, candidates)
    requires RowKey(candidates, rows).Some? && p == PlanOf(s, t, stored, rows, RowKey(candidates, rows))
    requires p.Valid() && Reachable(p)
    ensures var c := ChangesOf(p, true);
      ByKey(DiffKeyed(c.removed, c.updated, c.added), KeyNames(s, candidates, rows), StoredMaps(p), FinalMaps(p))
  {
    var g := KeyIsAGroup(s, candidates, rows);
    EndFits(p);
    KeyedEventsSay(p, s, t, stored, rows, RowKey(candidates, rows).value, g);
  }

  /** What editing a file by key leaves: it reads as `applied`, to which the
      events replay the rows it was read as, and each event says what its key
      did. */
  ghost predicate Edited(index: TableIndex, file: File, names: seq<string>, was: seq<Row>, applied: seq<Row>,
      events: seq<RowEvent>)
    requires index.Valid()
    reads index, index.store
  {
    && index.FileRows(file) == applied
    && Replay(multiset(was), events) == Some(multiset(applied))
    && ByKey(events, names, was, applied)
  }

  lemma {:induction false} FileEditSays(p: Plan, s: Schema, t: Rows, l: Ledger, file: File, rows: Shaped,
      candidates: seq<seq<Option<nat>>>, was: seq<Row>, will: seq<Row>, c: RowChanges)
    requires ValidRows(s, t) && Exact(t.Keys, l) && ValidShape(s, rows) && FromGroups(s, candidates)
    requires RowKey(candidates, rows).Some? && p == FilePlanOf(s, t, l, file, rows, RowKey(candidates, rows))
    requires p.Valid() && Reachable(p) && c == ChangesOf(p, true) && was == StoredMaps(p) && will == FinalMaps(p)
    ensures ByKey(DiffKeyed(c.removed, c.updated, c.added), KeyNames(s, candidates, rows), was, will)
  {
    var stored := FileIsRead(p, s, t, l, file, rows, RowKey(candidates, rows));
    ReachedSays(p, s, t, stored, rows, candidates);
  }

  lemma {:induction false} FileIsRead(p: Plan, s: Schema, t: Rows, l: Ledger, file: File, rows: Shaped,
      key: Option<seq<nat>>) returns (stored: seq<Held>)
    requires ValidRows(s, t) && Exact(t.Keys, l) && ValidShape(s, rows) && ValidKey(s, key)
    requires p == FilePlanOf(s, t, l, file, rows, key)
    ensures ReadFrom(stored, t) && p == PlanOf(s, t, stored, rows, key)
  {
    FilePlanIsValid(s, t, l, file, rows, key);
    stored := HeldAt(t, Read(t.Keys, l, file));
  }

  /** Edit the rows of `file` in place, by the key they fill. */
  method EditByKey(index: TableIndex, rows: Shaped, file: File) returns (r: Result<seq<RowEvent>, Constraint>)
    requires index.Valid() && ValidShape(index.store.schema, rows) && RowKey(index.candidates, rows).Some?
    modifies index, index.store
    ensures index.Valid()
    ensures r.Success? <==> old(Acceptable(index, rows, file))
    ensures r.Success? ==>
      Edited(index, file, KeyNames(index.store.schema, index.candidates, rows), old(index.FileRows(file)),
        old(Applied(index, rows, file)), r.value)
    ensures r.Failure? ==> index.store.rows == old(index.store.rows) && index.ledger == old(index.ledger)
    ensures OnlyTouches(old(index.store.rows), old(index.ledger), index.store.rows, index.ledger, file)
  {
    ghost var s, was, start, l := index.store.schema, index.FileRows(file), index.store.rows, index.ledger;
    ghost var p := index.PlanFor(file, rows, RowKey(index.candidates, rows));
    FilePlanIsValid(s, start, l, file, rows, RowKey(index.candidates, rows));
    assert was == StoredMaps(p) && Applied(index, rows, file) == FinalMaps(p);
    var reconciled := index.ReconcileFileRows(rows, file);
    if reconciled.Success? {
      EditReads(p, l, file, index.store.rows, index.ReadIds(file), was, reconciled.value.value);
      FileEditSays(p, s, start, l, file, rows, index.candidates, was, index.FileRows(file), reconciled.value.value);
    }
    r := Told(reconciled);
  }

  function Told(reconciled: Result<Option<RowChanges>, Constraint>): Result<seq<RowEvent>, Constraint>
    requires reconciled.Success? ==> reconciled.value.Some?
  {
    match reconciled
    case Failure(error) => Failure(error)
    case Success(Some(c)) => Success(DiffKeyed(c.removed, c.updated, c.added))
  }

  /** Edit the rows of `file` in place, or tell that they fill no key. */
  method Edit(index: TableIndex, rows: Shaped, file: File) returns (r: Result<Option<seq<RowEvent>>, Constraint>)
    requires index.Valid() && ValidShape(index.store.schema, rows)
    modifies index, index.store
    ensures index.Valid()
    ensures r == Success(None) <==> RowKey(index.candidates, rows).None?
    ensures !(r.Success? && r.value.Some?) ==>
      index.store.rows == old(index.store.rows) && index.ledger == old(index.ledger)
    ensures RowKey(index.candidates, rows).Some? ==> (r.Success? <==> old(Acceptable(index, rows, file)))
    ensures r.Success? && r.value.Some? ==>
      && index.FileRows(file) == old(Applied(index, rows, file))
      && Replay(multiset(old(index.FileRows(file))), r.value.value) == Some(multiset(index.FileRows(file)))
      && ByKey(r.value.value, KeyNames(index.store.schema, index.candidates, rows), old(index.FileRows(file)),
        index.FileRows(file))
    ensures OnlyTouches(old(index.store.rows), old(index.ledger), index.store.rows, index.ledger, file)
  {
    if RowKey(index.candidates, rows).None? {
      return Success(None);
    }
    var edited := EditByKey(index, rows, file);
    return if edited.Failure? then Failure(edited.error) else Success(Some(edited.value));
  }

  /**
   Apply a file's new rows in one transaction: edit them in place by key, or
   replace them, and tell what changed.
   */
  method Upsert(index: TableIndex, rows: Shaped, file: File) returns (r: Result<seq<RowEvent>, Constraint>)
    requires index.Valid() && ValidShape(index.store.schema, rows)
    modifies index, index.store
    ensures index.Valid()
    ensures r.Success? <==> old(Acceptable(index, rows, file))
    ensures r.Success? ==> index.FileRows(file) == old(Applied(index, rows, file))
    ensures r.Success? ==> Replay(multiset(old(index.FileRows(file))), r.value) == Some(multiset(index.FileRows(file)))
    ensures r.Success? && RowKey(index.candidates, rows).Some? ==>
      ByKey(r.value, KeyNames(index.store.schema, index.candidates, rows), old(index.FileRows(file)),
        index.FileRows(file))
    ensures r.Success? && RowKey(index.candidates, rows).None? ==>
      LineByLine(old(index.FileRows(file)), index.FileRows(file), r.value)
    ensures r.Success? && old(index.FileRows(file)) == index.FileRows(file) ==> r.value == []
    ensures r.Failure? ==> index.store.rows == old(index.store.rows) && index.ledger == old(index.ledger)
    ensures OnlyTouches(old(index.store.rows), old(index.ledger), index.store.rows, index.ledger, file)
  {
    ghost var was := index.FileRows(file);
    var edited := Edit(index, rows, file);
    if edited.Failure? {
      r := Failure(edited.error);
    } else if edited.value.Some? {
      r := Success(edited.value.value);
      if was == index.FileRows(file) {
        SameRowsSayNothing(r.value, KeyNames(index.store.schema, index.candidates, rows), was, index.FileRows(file));
      }
    } else {
      r := Replace(index, rows, file);
    }
  }

  /** When the rows carry every column, the file reads back as exactly them. */
  lemma {:induction false} UpsertReadsWanted(index: TableIndex, rows: Shaped, file: File)
    requires index.Valid() && ValidShape(index.store.schema, rows)
    requires forall c | 0 <= c < |rows.emitted| :: rows.emitted[c]
    ensures Applied(index, rows, file) == ToMaps(index.store.schema.columns, AsStored(index.store.schema, rows).cells)
  {
    var s, key := index.store.schema, RowKey(index.candidates, rows);
    if key.Some? {
      FilePlanIsValid(s, index.store.rows, index.ledger, file, rows, key);
      FinalsAreWanted(index.PlanFor(file, rows, key));
    }
  }

  /** Drop a deleted file's rows, and tell of each. */
  method Remove(index: TableIndex, file: File) returns (events: seq<RowEvent>)
    requires index.Valid()
    modifies index, index.store
    ensures index.Valid()
    ensures events == Deletes(old(index.FileRows(file)))
    ensures index.store.rows == old(index.store.rows) - old(index.Owned(file))
    ensures index.Owned(file) == {} &&
      OnlyTouches(old(index.store.rows), old(index.ledger), index.store.rows, index.ledger, file)
  {
    var oldRows := index.GetRowsByFile(file);
    var _ := index.DeleteRowsByFile(file);
    events := Diff(Some(oldRows), None);
  }

  // ------------------------------------------------------------- whole tables

  lemma {:induction false} MapsAtWithout(columns: seq<string>, t: Rows, ids: seq<nat>, k: nat, rest: seq<nat>)
    requires Readable(columns, t, ids) && k < |ids| && rest == ids[..k] + ids[k + 1..]
    ensures Readable(columns, t, rest)
    ensures BagsAdd(MapsAt(columns, t, rest), [ToMap(columns, t[ids[k]])], MapsAt(columns, t, ids))
  {
    var a, b := ids[..k], ids[k + 1..];
    assert MapsAt(columns, t, rest) == MapsAt(columns, t, a) + MapsAt(columns, t, b);
    assert MapsAt(columns, t, ids) == MapsAt(columns, t, a) + [ToMap(columns, t[ids[k]])] + MapsAt(columns, t, b);
  }

  /** The same rowids, in any order. */
  ghost predicate SameIds(a: seq<nat>, b: seq<nat>) { NoRepeat(a) && NoRepeat(b) && forall id :: id in a <==> id in b }

  lemma {:induction false} SameIdsFewer(a: seq<nat>, b: seq<nat>, k: nat)
    requires SameIds(a, b) && a != [] && k < |b| && b[k] == a[0]
    ensures SameIds(a[1..], b[..k] + b[k + 1..])
  {
    var b' := b[..k] + b[k + 1..];
    assert a[..0] + a[1..] == a[1..];
    forall id ensures id in a[1..] <==> id in b' {
      WithoutMembers(a, 0, id);
      WithoutMembers(b, k, id);
    }
    forall i, j ensures Unlike(a[1..], i, j) && Unlike(b', i, j) {
      assert Unlike(a, i + 1, j + 1);
      assert Unlike(b, if i < k then i else i + 1, if j < k then j else j + 1);
    }
  }

  ghost predicate SameBag(a: seq<Row>, b: seq<Row>) { multiset(a) == multiset(b) }

  lemma {:induction false} BothAdd(a: seq<Row>, b: seq<Row>, more: seq<Row>, a': seq<Row>, b': seq<Row>)
    requires SameBag(a, b) && BagsAdd(a, more, a') && BagsAdd(b, more, b')
    ensures SameBag(a', b')
  {
  }

  /** The same rows in any order are the same bag. */
  lemma {:induction false} SameIdsSameBag(columns: seq<string>, t: Rows, a: seq<nat>, b: seq<nat>)
    requires Readable(columns, t, a) && Readable(columns, t, b) && SameIds(a, b)
    ensures SameBag(MapsAt(columns, t, a), MapsAt(columns, t, b))
    decreases |a|
  {
    if a == [] {
      HasMember(b);
    } else {
      assert a[0] in a;
      var k :| 0 <= k < |b| && b[k] == a[0];
      var a', b' := a[1..], b[..k] + b[k + 1..];
      assert a' == a[..0] + a[1..];
      SameIdsFewer(a, b, k);
      MapsAtWithout(columns, t, a, 0, a');
      MapsAtWithout(columns, t, b, k, b');
      SameIdsSameBag(columns, t, a', b');
      BothAdd(MapsAt(columns, t, a'), MapsAt(columns, t, b'), [ToMap(columns, t[a[0]])], MapsAt(columns, t, a),
        MapsAt(columns, t, b));
    }
  }

  lemma {:induction false} WithoutMembers(ids: seq<nat>, k: nat, id: nat)
    requires NoRepeat(ids) && k < |ids|
    ensures id in ids[..k] + ids[k + 1..] <==> id in ids && id != ids[k]
  {
    if id in ids && id != ids[k] {
      var i :| 0 <= i < |ids| && ids[i] == id;
      assert (ids[..k] + ids[k + 1..])[if i < k then i else i - 1] == id;
    }
    var left := ids[..k] + ids[k + 1..];
    if i :| 0 <= i < |left| && left[i] == id {
      assert Unlike(ids, i, k) && Unlike(ids, k, i + 1);
    }
  }

  /** Every row of the table, as it reads back. */
  ghost function TableRows(s: Schema, t: Rows): seq<Row>
    requires ValidRows(s, t)
  {
    MapsAt(s.columns, t, AllIds(t.Keys))
  }

  /** What a whole table's reconcile leaves is its rows. */
  lemma {:induction false} FinalsAreTable(p: Plan, t': Rows)
    requires p.Valid() && IdsOf(p.stored) == p.start.Keys && t' == p.End() && ValidRows(p.schema, t')
    ensures multiset(FinalMaps(p)) == multiset(TableRows(p.schema, t'))
  {
    FinalsRead(p);
    BatchEnds(p);
    forall i, j ensures Unlike(PlacedAll(p), i, j) {
      if 0 <= i < j < |PlacedAll(p)| {
        PlacedIsInjective(p, i, j);
      }
    }
    AllIdsOnce(t'.Keys);
    SameIdsSameBag(p.schema.columns, t', PlacedAll(p), AllIds(t'.Keys));
  }

  /** The events of a whole table's reconcile, by key or not. */
  method BatchEvents(changes: RowChanges, ghost p: Plan, ghost rows: Shaped, ghost key: Option<seq<nat>>)
      returns (events: seq<RowEvent>)
    requires p.Valid() && changes == ChangesOf(p, key.Some?)
    requires key.None? ==> p.ChangedUpTo(|p.claims|) == []
    ensures Replay(multiset(StoredMaps(p)), events) == Some(multiset(FinalMaps(p)))
    ensures key.Some? ==> events == DiffKeyed(changes.removed, changes.updated, changes.added)
    ensures key.None? ==> Fewest(multiset(StoredMaps(p)), multiset(FinalMaps(p)), events)
  {
    if changes.keyed {
      KeyedEventsReplay(p, true);
      events := DiffKeyed(changes.removed, changes.updated, changes.added);
    } else {
      events := DiffUnordered(changes.removed, changes.added);
      UnorderedEventsReplay(p, events);
      UnorderedAreFewest(p, events);
    }
  }

  /** Between the same rows there is nothing to say, by key or not. */
  lemma {:induction false} SameBagSaysNothing(s: Schema, candidates: seq<seq<Option<nat>>>, rows: Shaped,
      was: seq<Row>, will: seq<Row>, events: seq<RowEvent>)
    requires ValidShape(s, rows) && SameBag(was, will)
    requires RowKey(candidates, rows).Some? ==> ByKey(events, KeyNames(s, candidates, rows), was, will)
    requires RowKey(candidates, rows).None? ==> Fewest(multiset(was), multiset(will), events)
    ensures events == []
  {
    if RowKey(candidates, rows).Some? {
      SameRowsSayNothing(events, KeyNames(s, candidates, rows), was, will);
    } else {
      assert Replay(multiset(was), []) == Some(multiset(will));
    }
  }

  /** Run a per-table hook's rows into the table its batch owns, and tell what
      changed. */
  method Refresh(index: TableIndex, rows: Shaped, owner: File) returns (r: Result<seq<RowEvent>, Constraint>)
    requires index.Valid() && OneBatch(index.ledger, owner) && ValidShape(index.store.schema, rows)
    modifies index, index.store
    ensures index.Valid() && OneBatch(index.ledger, owner)
    ensures r.Success? <==> Reachable(old(index.BatchPlan(rows)))
    ensures r.Success? ==> index.store.rows == old(index.BatchPlan(rows)).End()
    ensures r.Success? ==>
      Replay(multiset(TableRows(index.store.schema, old(index.store.rows))), r.value) ==
      Some(multiset(TableRows(index.store.schema, index.store.rows)))
    ensures r.Success? && RowKey(index.candidates, rows).Some? ==>
      ByKey(r.value, KeyNames(index.store.schema, index.candidates, rows),
        TableRows(index.store.schema, old(index.store.rows)), TableRows(index.store.schema, index.store.rows))
    ensures r.Success? && RowKey(index.candidates, rows).None? ==>
      Fewest(multiset(TableRows(index.store.schema, old(index.store.rows))),
        multiset(TableRows(index.store.schema, index.store.rows)), r.value)
    ensures r.Success? ==>
      var s, was := index.store.schema, old(index.store.rows);
      SameBag(TableRows(s, was), TableRows(s, index.store.rows)) ==> r.value == []
    ensures r.Failure? ==> index.store.rows == old(index.store.rows) && index.ledger == old(index.ledger)
  {
    ghost var s, start, l, key := index.store.schema, index.store.rows, index.ledger, RowKey(index.candidates, rows);
    ghost var p := BatchPlanOf(s, start, rows, key);
    BatchPlanIsValid(s, start, l, owner, rows, key);
    StoredRead(p, AllIds(start.Keys));
    if key.None? {
      MatchedWholeNeverChanges(s, start, HeldAt(start, AllIds(start.Keys)), rows);
    }
    var reconciled := index.ReconcileBatchRows(rows, owner);
    if reconciled.Failure? {
      return Failure(reconciled.error);
    }
    var events := BatchEvents(reconciled.value, p, rows, key);
    FinalsAreTable(p, index.store.rows);
    if key.Some? {
      ReachedSays(p, s, start, HeldAt(start, AllIds(start.Keys)), rows, index.candidates);
      SaidOfBags(events, KeyNames(s, index.candidates, rows), StoredMaps(p), FinalMaps(p),
        TableRows(s, start), TableRows(s, index.store.rows));
    }
    if SameBag(TableRows(s, start), TableRows(s, index.store.rows)) {
      SameBagSaysNothing(s, index.candidates, rows, TableRows(s, start), TableRows(s, index.store.rows), events);
    }
    return Success(events);
  }
}
