/**
 One user table and its ownership ledger under the operations of `Db` (db.rs),
 and the way a changed file is applied to both (lib.rs). An operation that fails
 leaves both as they were, as its transaction rolls back.
 */
module Index {
  import opened Wrappers
  import opened Values
  import opened UserTable
  import opened Reconcile
  import opened Ledger
  import opened Differ

  /** The rows `t` holds after one more is inserted. */
  function Grown(s: Schema, t: Rows, cells: Cells): Rows { t[MaxId(t.Keys) + 1 := Stored(s, cells)] }

  /** The rows `t` holds after the first `n` of `cells` are inserted. */
  function Appended(s: Schema, t: Rows, cells: seq<Cells>, n: nat): Rows
    requires n <= |cells|
  {
    if n == 0 then t else Grown(s, Appended(s, t, cells, n - 1), cells[n - 1])
  }

  lemma {:induction false} GrownKeys(s: Schema, t: Rows, cells: Cells)
    ensures MaxId(t.Keys) + 1 !in t && MaxId(Grown(s, t, cells).Keys) == MaxId(t.Keys) + 1
    ensures Grown(s, t, cells).Keys == t.Keys + {MaxId(t.Keys) + 1}
  {
    MaxIdIs(Grown(s, t, cells).Keys, MaxId(t.Keys) + 1);
  }

  lemma {:induction false} AppendedTop(s: Schema, t: Rows, cells: seq<Cells>, n: nat)
    requires n <= |cells|
    ensures MaxId(Appended(s, t, cells, n).Keys) == MaxId(t.Keys) + n
  {
    if n > 0 {
      AppendedTop(s, t, cells, n - 1);
      GrownKeys(s, Appended(s, t, cells, n - 1), cells[n - 1]);
    }
  }

  /** Which rowids appending fills. */
  lemma {:induction false} AppendedIds(s: Schema, t: Rows, cells: seq<Cells>, n: nat)
    requires n <= |cells|
    ensures forall id :: id in Appended(s, t, cells, n) <==> id in t || MaxId(t.Keys) < id <= MaxId(t.Keys) + n
    ensures MaxId(Appended(s, t, cells, n).Keys) == MaxId(t.Keys) + n
  {
    if n > 0 {
      AppendedIds(s, t, cells, n - 1);
      GrownKeys(s, Appended(s, t, cells, n - 1), cells[n - 1]);
    }
  }

  /** And with what. */
  lemma {:induction false} AppendedCells(s: Schema, t: Rows, cells: seq<Cells>, n: nat, id: nat)
    requires n <= |cells| && id in Appended(s, t, cells, n)
    ensures id in t ==> Appended(s, t, cells, n)[id] == t[id]
    ensures id !in t ==>
      0 <= id - MaxId(t.Keys) - 1 < n && Appended(s, t, cells, n)[id] == Stored(s, cells[id - MaxId(t.Keys) - 1])
  {
    AppendedIds(s, t, cells, n);
    if n > 0 {
      AppendedIds(s, t, cells, n - 1);
      if id != MaxId(t.Keys) + n {
        AppendedCells(s, t, cells, n - 1, id);
      }
    }
  }

  lemma {:induction false} AppendedKeys(s: Schema, t: Rows, cells: seq<Cells>, n: nat)
    requires n <= |cells|
    ensures forall id :: id in Appended(s, t, cells, n) <==> id in t || MaxId(t.Keys) < id <= MaxId(t.Keys) + n
    ensures MaxId(Appended(s, t, cells, n).Keys) == MaxId(t.Keys) + n
    ensures forall id | id in t :: Appended(s, t, cells, n)[id] == t[id]
    ensures forall i | 0 <= i < n :: Appended(s, t, cells, n)[MaxId(t.Keys) + 1 + i] == Stored(s, cells[i])
  {
    AppendedIds(s, t, cells, n);
    forall id | id in t ensures Appended(s, t, cells, n)[id] == t[id] {
      AppendedCells(s, t, cells, n, id);
    }
    forall i | 0 <= i < n ensures Appended(s, t, cells, n)[MaxId(t.Keys) + 1 + i] == Stored(s, cells[i]) {
      AppendedCells(s, t, cells, n, MaxId(t.Keys) + 1 + i);
    }
  }

  lemma {:induction false} FewerFit(s: Schema, fewer: Rows, all: Rows)
    requires ValidRows(s, all) && Agrees(fewer, all)
    ensures ValidRows(s, fewer)
  {
    FewerDiffer(s, fewer, all);
  }

  lemma {:induction false} AppendedGrows(s: Schema, t: Rows, cells: seq<Cells>, n: nat)
    requires 0 < n <= |cells|
    ensures Agrees(Appended(s, t, cells, n - 1), Appended(s, t, cells, n))
  {
    GrownKeys(s, Appended(s, t, cells, n - 1), cells[n - 1]);
  }

  /** If all the rows fit beside each other then so do the first of them. */
  lemma {:induction false} AppendedShrinks(s: Schema, t: Rows, cells: seq<Cells>, m: nat, n: nat)
    requires m <= n <= |cells| && ValidRows(s, Appended(s, t, cells, n))
    ensures ValidRows(s, Appended(s, t, cells, m))
    decreases n
  {
    if m < n {
      AppendedGrows(s, t, cells, n);
      FewerFit(s, Appended(s, t, cells, n - 1), Appended(s, t, cells, n));
      AppendedShrinks(s, t, cells, m, n - 1);
    }
  }

  lemma {:induction false} AppendedMore(s: Schema, t: Rows, cells: seq<Cells>) returns (more: set<nat>)
    ensures var n := |cells|; forall id :: id in more <==> MaxId(t.Keys) + 1 <= id <= MaxId(t.Keys) + n
    ensures Appended(s, t, cells, |cells|).Keys == t.Keys + more && more == Appended(s, t, cells, |cells|).Keys - t.Keys
  {
    AppendedKeys(s, t, cells, |cells|);
    more := Appended(s, t, cells, |cells|).Keys - t.Keys;
  }

  /** The batch's range records the rows appended. */
  lemma {:induction false} AppendedIsExact(s: Schema, t: Rows, cells: seq<Cells>, l: Ledger, file: File)
    requires Exact(t.Keys, l)
    ensures Exact(Appended(s, t, cells, |cells|).Keys, Ranged(l, file, MaxId(t.Keys), |cells|))
  {
    var more := AppendedMore(s, t, cells);
    RangedKeepsExact(t.Keys, l, file, MaxId(t.Keys), |cells|, more);
  }

  lemma {:induction false} AppendedOwners(s: Schema, t: Rows, cells: seq<Cells>, l: Ledger, file: File)
    requires Exact(t.Keys, l)
    ensures var t', l' := Appended(s, t, cells, |cells|), Ranged(l, file, MaxId(t.Keys), |cells|);
      && OwnedBy(t'.Keys, l', file) == OwnedBy(t.Keys, l, file) + (t'.Keys - t.Keys)
      && OnlyTouches(t, l, t', l', file)
  {
    AppendedKeys(s, t, cells, |cells|);
    var more := AppendedMore(s, t, cells);
    var t', l' := Appended(s, t, cells, |cells|), Ranged(l, file, MaxId(t.Keys), |cells|);
    forall f ensures OwnedBy(t'.Keys, l', f) == OwnedBy(t.Keys, l, f) + if f == file then more else {} {
      RangedOwnedBy(t.Keys, l, file, MaxId(t.Keys), |cells|, more, f);
    }
  }

  /** What inserting a whole batch leaves. */
  lemma {:induction false} AppendedSettles(s: Schema, t: Rows, cells: seq<Cells>, l: Ledger, file: File, t': Rows,
      l': Ledger)
    requires Exact(t.Keys, l)
    requires t' == Appended(s, t, cells, |cells|) && l' == Ranged(l, file, MaxId(t.Keys), |cells|)
    ensures Exact(t'.Keys, l')
    ensures OwnedBy(t'.Keys, l', file) == OwnedBy(t.Keys, l, file) + (t'.Keys - t.Keys)
    ensures OnlyTouches(t, l, t', l', file)
  {
    AppendedIsExact(s, t, cells, l, file);
    AppendedOwners(s, t, cells, l, file);
  }

  lemma {:induction false} StoredFits(s: Schema, cells: Cells)
    requires ValidSchema(s) && |cells| == |s.columns|
    ensures Fits(s, Stored(s, cells))
  {
  }

  /** The next row goes in exactly when the rows so far and it fit together. */
  lemma {:induction false} NextFits(s: Schema, rows: Rows, cells: Cells)
    requires ValidRows(s, rows) && |cells| == |s.columns|
    ensures Violation(s.groups, rows, MaxId(rows.Keys) + 1, Stored(s, cells)).None? <==>
      ValidRows(s, Grown(s, rows, cells))
  {
    StoredFits(s, cells);
    PlacingKeepsDistinct(s, rows, MaxId(rows.Keys) + 1, Stored(s, cells));
  }

  lemma {:induction false} RefusedMidway(s: Schema, t: Rows, cells: seq<Cells>, i: nat)
    requires i <= |cells| && !ValidRows(s, Appended(s, t, cells, i))
    ensures !ValidRows(s, Appended(s, t, cells, |cells|))
  {
    if ValidRows(s, Appended(s, t, cells, |cells|)) {
      AppendedShrinks(s, t, cells, i, |cells|);
    }
  }

  /** The positions of the first key whose columns every row fills. */
  function RowKey(candidates: seq<seq<Option<nat>>>, rows: Shaped): (key: Option<seq<nat>>)
    requires forall i | 0 <= i < |rows.cells| :: |rows.cells[i]| == |rows.emitted|
    ensures key.Some? ==> key.value != [] && forall c | c in key.value :: c < |rows.emitted|
    ensures key.Some? ==> forall i, c | 0 <= i < |rows.cells| && c in key.value :: rows.cells[i][c] != Null
    ensures key.None? ==> forall names | names in candidates :: PassedOver(names, rows)
    ensures key.Some? ==> exists k: nat :: FirstFilled(candidates, rows, k) && key.value == Positions(candidates[k])
  {
    if candidates == [] then None
    else if Fills(candidates[0], rows) then
      assert FirstFilled(candidates, rows, 0);
      Some(Positions(candidates[0]))
    else
      assert candidates == [candidates[0]] + candidates[1..];
      assert forall k: nat :: FirstFilled(candidates[1..], rows, k) ==> FirstFilled(candidates, rows, k + 1);
      RowKey(candidates[1..], rows)
  }

  /** A candidate that cannot match every row: it has no columns, or one is an
      expression or not the table's, or some row leaves one NULL. */
  predicate PassedOver(names: seq<Option<nat>>, rows: Shaped)
    requires forall i | 0 <= i < |rows.cells| :: |rows.cells[i]| == |rows.emitted|
  {
    || names == []
    || (exists k | 0 <= k < |names| :: names[k].None? || names[k].value >= |rows.emitted|)
    || (exists i, k | 0 <= i < |rows.cells| && 0 <= k < |names| ::
        names[k].Some? && names[k].value < |rows.emitted| && rows.cells[i][names[k].value] == Null)
  }

  /** Candidate `k` is not passed over, and each before it is. */
  predicate FirstFilled(candidates: seq<seq<Option<nat>>>, rows: Shaped, k: nat)
    requires forall i | 0 <= i < |rows.cells| :: |rows.cells[i]| == |rows.emitted|
  {
    k < |candidates| && !PassedOver(candidates[k], rows) && forall j | 0 <= j < k :: PassedOver(candidates[j], rows)
  }

  /** A key no column of which is an expression, and that every row fills. */
  predicate Fills(names: seq<Option<nat>>, rows: Shaped)
    requires forall i | 0 <= i < |rows.cells| :: |rows.cells[i]| == |rows.emitted|
  {
    && names != []
    && (forall k | 0 <= k < |names| :: names[k].Some? && names[k].value < |rows.emitted|)
    && (forall i, k | 0 <= i < |rows.cells| && 0 <= k < |names| :: rows.cells[i][names[k].value] != Null)
  }

  function Positions(names: seq<Option<nat>>): (r: seq<nat>)
    requires forall k | 0 <= k < |names| :: names[k].Some?
    ensures |r| == |names| && forall k | 0 <= k < |names| :: Some(r[k]) == names[k]
  {
    seq(|names|, k requires 0 <= k < |names| => names[k].value)
  }

  /** A key no column of which is an expression. */
  predicate Plain(names: seq<Option<nat>>) { names != [] && forall k | 0 <= k < |names| :: names[k].Some? }

  /** Each key that could be chosen is that of a UNIQUE index or the PRIMARY KEY. */
  ghost predicate FromGroups(s: Schema, candidates: seq<seq<Option<nat>>>) {
    forall names | names in candidates && Plain(names) :: exists g | g in s.groups :: g.columns == Positions(names)
  }

  predicate ReadAs(stored: seq<Held>, ids: seq<nat>) {
    |stored| == |ids| && forall i | 0 <= i < |ids| :: stored[i].id == ids[i]
  }

  function HeldAt(t: Rows, ids: seq<nat>): (r: seq<Held>)
    requires forall k | 0 <= k < |ids| :: ids[k] in t
    ensures |r| == |ids| && ReadAs(r, ids)
  {
    seq(|ids|, k requires 0 <= k < |ids| => Held(ids[k], t[ids[k]]))
  }

  predicate Readable(columns: seq<string>, t: Rows, ids: seq<nat>) {
    forall k | 0 <= k < |ids| :: ids[k] in t && |t[ids[k]]| == |columns|
  }

  function MapsAt(columns: seq<string>, t: Rows, ids: seq<nat>): (r: seq<Row>)
    requires Readable(columns, t, ids)
    ensures |r| == |ids|
  {
    seq(|ids|, k requires 0 <= k < |ids| => ToMap(columns, t[ids[k]]))
  }

  /** `reconcile_rows` inside a transaction: a failure leaves no trace. */
  method ReconcileAtomically(store: TableStore, stored: seq<Held>, rows: Shaped, key: Option<seq<nat>>)
    returns (r: Result<(RowChanges, seq<nat>), Constraint>)
    requires store.Valid() && ReadFrom(stored, store.rows)
    requires ValidShape(store.schema, rows) && ValidKey(store.schema, key)
    requires PlanOf(store.schema, store.rows, stored, rows, key).Valid()
    modifies store
    ensures store.Valid()
    ensures var p := PlanOf(store.schema, old(store.rows), stored, rows, key);
      && (r.Success? <==> Reachable(p))
      && (r.Success? ==> store.rows == p.End() && r.value == (ChangesOf(p, key.Some?), PlacedAll(p)))
    ensures r.Failure? ==> store.rows == old(store.rows)
  {
    var saved := store.rows;
    r := ReconcileRows(store, stored, rows, key);
    if r.Failure? {
      store.Rollback(saved);
    }
  }

  /** The range of the `n` rowids past `base`. */
  function Spanned(base: nat, n: nat): Option<(nat, nat)> { if n == 0 then None else Some((base + 1, base + n)) }

  /** The range of rowids with one more in it. */
  function Widened(range: Option<(nat, nat)>, rowid: nat): (r: (nat, nat))
    ensures range.Some? && range.value.0 <= range.value.1 < rowid ==> r == (range.value.0, rowid)
  {
    if range.None? then (rowid, rowid) else (Min(range.value.0, rowid), Max(range.value.1, rowid))
  }

  class TableIndex {
    const store: TableStore
    const candidates: seq<seq<Option<nat>>>
    var ledger: Ledger

    /** The live rowids. */
    ghost function Ids(): set<nat>
      reads store
    {
      store.rows.Keys
    }

    ghost function Owned(file: File): set<nat>
      reads this, store
    {
      OwnedBy(store.rows.Keys, ledger, file)
    }

    ghost predicate Valid()
      reads this, store
    {
      store.Valid() && Exact(store.rows.Keys, ledger) && FromGroups(store.schema, candidates)
    }

    constructor (schema: Schema, candidates: seq<seq<Option<nat>>>)
      requires ValidSchema(schema) && FromGroups(schema, candidates)
      ensures Valid() && fresh(store) && store.schema == schema && this.candidates == candidates
      ensures store.rows == map[]
    {
      this.store := new TableStore(schema);
      this.candidates := candidates;
      this.ledger := Ledger([], []);
    }

    /** Insert one row under `file` and `index`. */
    method InsertRow(values: Cells, file: File, index: nat) returns (failed: Option<Constraint>)
      requires Valid() && |values| == |store.schema.columns|
      modifies this, store
      ensures Valid()
      ensures failed.None? <==> ValidRows(store.schema, Grown(store.schema, old(store.rows), values))
      ensures failed.Some? ==> store.rows == old(store.rows) && ledger == old(ledger)
      ensures failed.None? ==> store.rows == Grown(store.schema, old(store.rows), values)
      ensures failed.None? ==> ledger == Map(old(ledger), file, index, MaxId(old(store.rows).Keys) + 1)
      ensures failed.None? ==> Owned(file) == old(Owned(file)) + (Ids() - old(Ids()))
      ensures OnlyTouches(old(store.rows), old(ledger), store.rows, ledger, file)
    {
      ghost var saved, l := store.rows, ledger;
      var id;
      failed, id := InsertNext(values);
      if failed.None? {
        ledger := Map(ledger, file, index, id);
        assert Under(saved.Keys, id - 1);
        assert store.rows.Keys == saved.Keys + {id};
        MapSettles(saved.Keys, l, file, index, id, store.rows.Keys, ledger);
      }
    }

    /** The two statements of `InsertRow`, inside the caller's transaction. */
    method InsertRowStmts(values: Cells, file: File, index: nat) returns (failed: Option<Constraint>)
      requires store.Valid() && |values| == |store.schema.columns|
      modifies this, store
      ensures store.Valid()
      ensures failed.None? <==> ValidRows(store.schema, Grown(store.schema, old(store.rows), values))
      ensures failed.None? ==> store.rows == Grown(store.schema, old(store.rows), values)
      ensures failed.None? ==> ledger == Map(old(ledger), file, index, MaxId(old(store.rows).Keys) + 1)
      ensures failed.Some? ==> store.rows == old(store.rows) && ledger == old(ledger)
    {
      var id;
      failed, id := InsertNext(values);
      if failed.None? {
        ledger := Map(ledger, file, index, id);
      }
    }

    method InsertNext(cells: Cells) returns (failed: Option<Constraint>, rowid: nat)
      requires store.Valid() && |cells| == |store.schema.columns|
      modifies store
      ensures store.Valid() && rowid == MaxId(old(store.rows).Keys) + 1
      ensures failed.None? <==> ValidRows(store.schema, Grown(store.schema, old(store.rows), cells))
      ensures failed.None? ==> store.rows == Grown(store.schema, old(store.rows), cells)
      ensures failed.Some? ==> store.rows == old(store.rows)
    {
      NextFits(store.schema, store.rows, cells);
      failed, rowid := store.Insert(cells);
    }

    /** Insert each row, noting the smallest and largest rowid received. */
    method InsertAll(cells: seq<Cells>) returns (failed: Option<Constraint>, range: Option<(nat, nat)>)
      requires store.Valid() && forall i | 0 <= i < |cells| :: |cells[i]| == |store.schema.columns|
      modifies store
      ensures store.Valid()
      ensures failed.None? <==> ValidRows(store.schema, Appended(store.schema, old(store.rows), cells, |cells|))
      ensures failed.None? ==> store.rows == Appended(store.schema, old(store.rows), cells, |cells|)
      ensures failed.None? ==> range == Spanned(MaxId(old(store.rows).Keys), |cells|)
    {
      failed, range := None, None;
      ghost var start, base := store.rows, MaxId(store.rows.Keys);
      for i := 0 to |cells|
        invariant store.Valid() && failed.None?
        invariant store.rows == Appended(store.schema, start, cells, i)
        invariant range == Spanned(base, i)
      {
        failed, range := InsertIth(cells, i, range, start, base);
        if failed.Some? {
          return;
        }
      }
    }

    method InsertIth(cells: seq<Cells>, i: nat, range: Option<(nat, nat)>, ghost start: Rows, ghost base: nat)
      returns (failed: Option<Constraint>, range': Option<(nat, nat)>)
      requires store.Valid() && i < |cells| && |cells[i]| == |store.schema.columns|
      requires store.rows == Appended(store.schema, start, cells, i)
      requires base == MaxId(start.Keys) && range == Spanned(base, i)
      modifies store
      ensures store.Valid()
      ensures failed.None? ==>
        store.rows == Appended(store.schema, start, cells, i + 1) && range' == Spanned(base, i + 1)
      ensures failed.Some? ==> !ValidRows(store.schema, Appended(store.schema, start, cells, |cells|))
    {
      var rowid;
      AppendedTop(store.schema, start, cells, i);
      failed, rowid := InsertNext(cells[i]);
      range' := Some(Widened(range, rowid));
      if failed.Some? {
        RefusedMidway(store.schema, start, cells, i + 1);
      }
    }

    /** Insert rows in order and own them as one range of rowids. */
    method InsertRows(rows: Shaped, file: File) returns (failed: Option<Constraint>)
      requires Valid() && ValidShape(store.schema, rows)
      modifies this, store
      ensures Valid()
      ensures failed.None? <==>
        ValidRows(store.schema, Appended(store.schema, old(store.rows), rows.cells, |rows.cells|))
      ensures failed.Some? ==> store.rows == old(store.rows) && ledger == old(ledger)
      ensures failed.None? ==>
        && store.rows == Appended(store.schema, old(store.rows), rows.cells, |rows.cells|)
        && ledger == Ranged(old(ledger), file, MaxId(old(store.rows).Keys), |rows.cells|)
        && Owned(file) == old(Owned(file)) + (store.rows.Keys - old(store.rows).Keys)
      ensures OnlyTouches(old(store.rows), old(ledger), store.rows, ledger, file)
    {
      var saved := store.rows;
      ghost var l := ledger;
      var range;
      failed, range := InsertAll(rows.cells);
      if failed.Some? {
        store.Rollback(saved);
      } else {
        if range.Some? {
          ledger := Range(ledger, file, range.value.0, range.value.1);
        }
        AppendedSettles(store.schema, saved, rows.cells, l, file, store.rows, ledger);
      }
    }

    /** The rowids of a file's rows in the order they are read back. */
    ghost function ReadIds(file: File): seq<nat>
      reads this, store
    {
      Read(store.rows.Keys, ledger, file)
    }

    /** A file's rows as they are read back. */
    ghost function FileRows(file: File): seq<Row>
      reads this, store
      requires Valid()
    {
      ReadIsOwned(store.rows.Keys, ledger, file);
      MapsAt(store.schema.columns, store.rows, ReadIds(file))
    }

    method GetRowsByFile(file: File) returns (rows: seq<Row>)
      requires Valid()
      ensures NoRepeat(ReadIds(file)) && forall id :: id in ReadIds(file) <==> id in Owned(file)
      ensures OrderedReading(ledger, file, ReadIds(file))
      ensures |rows| == |ReadIds(file)|
      ensures forall k | 0 <= k < |rows| :: ReadIds(file)[k] in store.rows
      ensures forall k | 0 <= k < |rows| :: Reads(store.schema.columns, store.rows[ReadIds(file)[k]], rows[k])
      ensures rows == FileRows(file)
    {
      ReadIsOwned(store.rows.Keys, ledger, file);
      ReadsInOrder(store.rows.Keys, ledger, file);
      rows := MapsAt(store.schema.columns, store.rows, Read(store.rows.Keys, ledger, file));
      forall k | 0 <= k < |rows| ensures Reads(store.schema.columns, store.rows[ReadIds(file)[k]], rows[k]) {
        ToMapReads(store.schema.columns, store.rows[ReadIds(file)[k]]);
      }
    }

    /** The plan of making `file`'s rows equal `rows`. */
    ghost function PlanFor(file: File, rows: Shaped, key: Option<seq<nat>>): Plan
      reads this, store
      requires Valid() && ValidShape(store.schema, rows) && ValidKey(store.schema, key)
    {
      FilePlanOf(store.schema, store.rows, ledger, file, rows, key)
    }

    /**
     Edit a file's rows in place until they are `rows`, and list their rowids in
     the rows' order. Without a key to match by, do nothing.
     */
    method ReconcileFileRows(rows: Shaped, file: File) returns (r: Result<Option<RowChanges>, Constraint>)
      requires Valid() && ValidShape(store.schema, rows)
      modifies this, store
      ensures Valid()
      ensures r == Success(None) <==> RowKey(candidates, rows).None?
      ensures !(r.Success? && r.value.Some?) ==> store.rows == old(store.rows) && ledger == old(ledger)
      ensures RowKey(candidates, rows).Some? ==>
        var p := old(PlanFor(file, rows, RowKey(candidates, rows)));
        && FilePlan(p, old(ledger), file)
        && (r.Success? <==> Reachable(p))
        && (r.Success? ==>
          r.value == Some(ChangesOf(p, true)) && store.rows == p.End() && ReadIds(file) == PlacedAll(p))
      ensures OnlyTouches(old(store.rows), old(ledger), store.rows, ledger, file)
    {
      var key := RowKey(candidates, rows);
      if key.None? {
        return Success(None);
      }
      ghost var p := FilePlanOf(store.schema, store.rows, ledger, file, rows, key);
      FilePlanIsValid(store.schema, store.rows, ledger, file, rows, key);
      var ids := Read(store.rows.Keys, ledger, file);
      ReadIsOwned(store.rows.Keys, ledger, file);
      var reconciled := ReconcileAtomically(store, HeldAt(store.rows, ids), rows, key);
      if reconciled.Failure? {
        return Failure(reconciled.error);
      }
      var (changes, placed) := reconciled.value;
      if placed != ids {
        ledger := Own(ledger, file, placed);
      }
      FileSettles(p, old(ledger), file, store.rows, ledger);
      return Success(Some(changes));
    }

    /** The plan of making a batch's whole table equal `rows`. */
    ghost function BatchPlan(rows: Shaped): (p: Plan)
      reads this, store
      requires store.Valid() && ValidShape(store.schema, rows)
      ensures p.Valid()
    {
      BatchPlanOf(store.schema, store.rows, rows, RowKey(candidates, rows))
    }

    /**
     Make the rows of a table one batch owns whole equal `rows`, by key or as a
     multiset, and re-fit the batch's range when a row came or went.
     */
    method ReconcileBatchRows(rows: Shaped, owner: File) returns (r: Result<RowChanges, Constraint>)
      requires Valid() && OneBatch(ledger, owner) && ValidShape(store.schema, rows)
      modifies this, store
      ensures Valid() && OneBatch(ledger, owner)
      ensures r.Failure? ==> store.rows == old(store.rows) && ledger == old(ledger)
      ensures var p, key := old(BatchPlan(rows)), RowKey(candidates, rows);
        && (r.Success? <==> Reachable(p))
        && (r.Success? ==> r.value == ChangesOf(p, key.Some?) && store.rows == p.End())
    {
      var key := RowKey(candidates, rows);
      var ids := AllIds(store.rows.Keys);
      ghost var p := BatchPlanOf(store.schema, store.rows, rows, key);
      BatchPlanIsValid(store.schema, store.rows, ledger, owner, rows, key);
      var reconciled := ReconcileAtomically(store, HeldAt(store.rows, ids), rows, key);
      if reconciled.Failure? {
        return Failure(reconciled.error);
      }
      var (changes, placed) := reconciled.value;
      FitRange(p, changes, placed, owner);
      return Success(changes);
    }

    /** Re-fit the batch's range to the rows placed, when a row came or went. */
    method FitRange(ghost p: Plan, changes: RowChanges, placed: seq<nat>, owner: File)
      requires WholePlan(p, ledger, owner) && store.rows == p.End()
      requires changes == ChangesOf(p, changes.keyed) && placed == PlacedAll(p)
      modifies this
      ensures Exact(store.rows.Keys, ledger) && OneBatch(ledger, owner)
    {
      ghost var l := ledger;
      if changes.removed != [] || changes.added != [] {
        ledger := Refit(ledger, owner, placed);
      }
      BatchSettles(p, changes, l, owner, store.rows, ledger);
    }

    /** Make a batch's rows equal `rows`: in place by key, else afresh. */
    method RefillBatchRows(rows: Shaped, owner: File) returns (failed: Option<Constraint>)
      requires Valid() && OneBatch(ledger, owner) && ValidShape(store.schema, rows)
      modifies this, store
      ensures Valid() && OneBatch(ledger, owner)
      ensures failed.Some? ==> store.rows == old(store.rows) && ledger == old(ledger)
      ensures RowKey(candidates, rows).Some? ==>
        var p := old(BatchPlan(rows)); (failed.None? <==> Reachable(p)) && (failed.None? ==> store.rows == p.End())
      ensures RowKey(candidates, rows).None? ==>
        var all := Appended(store.schema, map[], rows.cells, |rows.cells|);
        (failed.None? <==> ValidRows(store.schema, all)) && (failed.None? ==> store.rows == all)
    {
      if RowKey(candidates, rows).Some? {
        var r := ReconcileBatchRows(rows, owner);
        return if r.Success? then None else Some(r.error);
      }
      var saved, recorded := store.rows, ledger;
      Clear(owner);
      failed := InsertRows(rows, owner);
      RangedIsOneBatch(Drop(recorded, owner), owner, MaxId({}), |rows.cells|);
      if failed.Some? {
        store.Rollback(saved);
        ledger := recorded;
      }
    }

    /** Delete a batch's whole table. */
    method Clear(owner: File)
      requires Valid() && OneBatch(ledger, owner)
      modifies this, store
      ensures Valid() && store.rows == map[] && ledger == Drop(old(ledger), owner) && OneBatch(ledger, owner)
    {
      BatchOwnsAll(store.rows.Keys, ledger, owner);
      var _ := DeleteRowsByFile(owner);
      assert store.rows == map[];
    }

    /** Delete the rows of one range more. */
    method DeleteSpan(span: Span, ghost start: Rows, ghost gone0: set<nat>) returns (count: nat, ghost gone: set<nat>)
      requires store.Valid() && gone0 <= start.Keys && store.rows == start - gone0
      modifies store
      ensures store.Valid() && gone <= start.Keys && store.rows == start - gone && count + |gone0| == |gone|
      ensures forall id :: id in gone <==> id in gone0 || (id in start && Covers(span, id))
    {
      var ids := SetOf(Between(store.rows.Keys, span.first, span.last));
      ghost var more := store.rows.Keys * ids;
      GoneToo(start, gone0, ids, more);
      gone := gone0 + more;
      assert forall id :: id in more <==> id in start && id !in gone0 && Covers(span, id);
      count := store.DeleteAll(ids);
    }

    /** Delete the rows of every range of `file`. */
    method DeleteSpans(spans: seq<Span>, ghost start: Rows, ghost gone0: set<nat>)
        returns (count: nat, ghost gone: set<nat>)
      requires store.Valid() && gone0 <= start.Keys && store.rows == start - gone0
      modifies store
      ensures store.Valid() && gone <= start.Keys && store.rows == start - gone && count + |gone0| == |gone|
      ensures forall id :: id in gone <==> id in gone0 || (id in start && CoveredBy(spans, id))
    {
      count, gone := 0, gone0;
      for k := 0 to |spans|
        invariant store.Valid() && gone <= start.Keys && store.rows == start - gone && count + |gone0| == |gone|
        invariant forall id :: id in gone <==> id in gone0 || (id in start && CoveredBy(spans[..k], id))
      {
        var n;
        n, gone := DeleteSpan(spans[k], start, gone);
        count := count + n;
        CoveredByOneMore(spans, k);
      }
      assert spans[..|spans|] == spans;
    }

    /** Delete every row of `file` and all record of them. */
    method DeleteRowsByFile(file: File) returns (count: nat)
      requires Valid()
      modifies this, store
      ensures Valid()
      ensures store.rows == old(store.rows) - old(Owned(file)) && count == |old(Owned(file))|
      ensures ledger == Drop(old(ledger), file)
      ensures Owned(file) == {} && OnlyTouches(old(store.rows), old(ledger), store.rows, ledger, file)
    {
      ghost var start, l := store.rows, ledger;
      ghost var gone := start.Keys * SetOf(Rowids(Of(ledger.mapping, file)));
      count := store.DeleteAll(SetOf(Rowids(Of(ledger.mapping, file))));
      assert store.rows == start - gone;
      ledger := ledger.(mapping := Except(ledger.mapping, file));
      var more;
      more, gone := DeleteSpans(SpansOf(ledger.ranges, file), start, gone);
      count := count + more;
      ledger := ledger.(ranges := SpansExcept(ledger.ranges, file));
      forall id: nat ensures id in gone <==> id in OwnedBy(start.Keys, l, file) {
        OwnedByParts(l, file, id);
      }
      assert gone == OwnedBy(start.Keys, l, file);
      DropKeepsExact(start.Keys, l, file);
      forall f ensures Owned(f) == if f == file then {} else OwnedBy(start.Keys, l, f) {
        DropOwnedBy(start.Keys, l, file, f);
      }
    }
  }

  lemma {:induction false} GoneToo(start: Rows, gone: set<nat>, ids: set<nat>, more: set<nat>)
    requires gone <= start.Keys && more == (start - gone).Keys * ids
    ensures start - gone - ids == start - (gone + more) && gone + more <= start.Keys
    ensures |gone + more| == |gone| + |more|
  {
    assert gone !! more;
  }

  lemma {:induction false} CoveredByOneMore(spans: seq<Span>, k: nat)
    requires k < |spans|
    ensures forall id: nat :: CoveredBy(spans[..k + 1], id) <==> CoveredBy(spans[..k], id) || Covers(spans[k], id)
  {
    assert spans[..k + 1] == spans[..k] + [spans[k]];
  }

  lemma {:induction false} OwnedByParts(l: Ledger, file: File, id: nat)
    ensures Owns(l, file, id) <==> id in Rowids(Of(l.mapping, file)) || CoveredBy(SpansOf(l.ranges, file), id)
  {
    RowidsMembers(Of(l.mapping, file), id);
    SpannedIds(l.ranges, file, id);
    if Maps(l.mapping, file, id) {
      var m :| m in l.mapping && m.file == file && m.rowid == id;
      assert m in Of(l.mapping, file);
    }
  }

  // ---------------------------------------------------- what a reconcile leaves

  /** The plan of reconciling a file's rows. */
  ghost predicate FilePlan(p: Plan, l: Ledger, file: File) {
    && p.Valid() && Exact(p.start.Keys, l)
    && ReadAs(p.stored, Read(p.start.Keys, l, file))
  }

  /** Every live rowid, in order. */
  function AllIds(ids: set<nat>): (r: seq<nat>)
    ensures forall id :: id in r <==> id in ids
  {
    Between(ids, 0, MaxId(ids))
  }

  lemma {:induction false} AllIdsOnce(ids: set<nat>)
    ensures NoRepeat(AllIds(ids)) && forall k | 0 <= k < |AllIds(ids)| :: AllIds(ids)[k] in ids
  {
    BetweenIncreases(ids, 0, MaxId(ids));
    IncreasingIsUnlike(AllIds(ids));
    forall k | 0 <= k < |AllIds(ids)| ensures AllIds(ids)[k] in ids {
      assert AllIds(ids)[k] in AllIds(ids);
    }
  }

  ghost function BatchPlanOf(s: Schema, t: Rows, rows: Shaped, key: Option<seq<nat>>): (p: Plan)
    requires ValidRows(s, t) && ValidShape(s, rows) && ValidKey(s, key)
    ensures p.Valid()
  {
    AllIdsOnce(t.Keys);
    HeldPlanIsValid(s, t, AllIds(t.Keys), rows, key);
    PlanOf(s, t, HeldAt(t, AllIds(t.Keys)), rows, key)
  }

  /** The plan of reconciling a table one batch owns whole: every row is read. */
  ghost predicate WholePlan(p: Plan, l: Ledger, owner: File) {
    p.Valid() && IdsOf(p.stored) == p.start.Keys && Exact(p.start.Keys, l) && OneBatch(l, owner)
  }

  lemma {:induction false} BatchPlanIsValid(s: Schema, t: Rows, l: Ledger, owner: File, rows: Shaped,
      key: Option<seq<nat>>)
    requires ValidRows(s, t) && ValidShape(s, rows) && ValidKey(s, key)
    requires Exact(t.Keys, l) && OneBatch(l, owner)
    ensures WholePlan(BatchPlanOf(s, t, rows, key), l, owner)
    ensures ReadFrom(HeldAt(t, AllIds(t.Keys)), t)
  {
    var ids := AllIds(t.Keys);
    AllIdsOnce(t.Keys);
    HeldPlanIsValid(s, t, ids, rows, key);
    IsWholePlan(BatchPlanOf(s, t, rows, key), t, l, owner, ids);
  }

  lemma {:induction false} IsWholePlan(p: Plan, t: Rows, l: Ledger, owner: File, ids: seq<nat>)
    requires (forall id :: id in ids <==> id in t) && Exact(t.Keys, l) && OneBatch(l, owner)
    requires p.Valid() && p.start == t && p.stored == HeldAt(t, ids)
    ensures WholePlan(p, l, owner)
  {
    IdsOfRead(p.stored, ids, t.Keys);
  }

  /** When every row was read, what is left is what was placed. */
  lemma {:induction false} BatchEnds(p: Plan)
    requires p.Valid() && IdsOf(p.stored) == p.start.Keys
    ensures forall id :: id in p.End() <==> id in PlacedAll(p)
  {
    forall id: nat ensures id in p.End() <==> id in PlacedAll(p) {
      EndIds(p, id);
    }
  }

  /** Where no row came and none went, the rowids in use are those there were. */
  lemma {:induction false} NothingMoved(p: Plan)
    requires p.Valid() && IdsOf(p.stored) == p.start.Keys
    requires p.RemovedUpTo(|p.stored|) == [] && p.AddedUpTo(|p.claims|) == []
    ensures p.End().Keys == p.start.Keys
  {
    RemovedIdsLeave(p);
    assert RemovedIds(p) == [];
    forall id: nat ensures id in PlacedAll(p) <==> id in p.Claimed() {
      PlacedAreClaimed(p, id);
    }
    BatchEnds(p);
  }

  lemma {:induction false} PlacedAreClaimed(p: Plan, id: nat)
    requires p.Shaped() && p.AddedUpTo(|p.claims|) == []
    ensures id in PlacedAll(p) <==> id in p.Claimed()
  {
    forall i | 0 <= i < |p.claims| ensures p.claims[i].Some? {
      assert i !in p.AddedUpTo(|p.claims|);
    }
    if id in p.Claimed() {
      var c :| c in p.claims && c.Some? && c.value < |p.stored| && p.stored[c.value].id == id;
      var i :| 0 <= i < |p.claims| && p.claims[i] == c;
      assert PlacedAll(p)[i] == id;
    }
    if i :| 0 <= i < |p.claims| && PlacedAll(p)[i] == id {
      assert p.claims[i] in p.claims;
    }
  }

  lemma {:induction false} BatchSettles(p: Plan, c: RowChanges, l: Ledger, owner: File, t': Rows, l': Ledger)
    requires WholePlan(p, l, owner) && t' == p.End()
    requires c == ChangesOf(p, c.keyed)
    requires c.removed == [] && c.added == [] ==> l' == l
    requires c.removed != [] || c.added != [] ==> l' == Refit(l, owner, PlacedAll(p))
    ensures Exact(t'.Keys, l') && OneBatch(l', owner)
  {
    if p.RemovedUpTo(|p.stored|) == [] && p.AddedUpTo(|p.claims|) == [] {
      NothingMoved(p);
    } else {
      BatchEnds(p);
      RefitKeepsExact(l, owner, PlacedAll(p), t'.Keys);
    }
  }

  ghost function FilePlanOf(s: Schema, t: Rows, l: Ledger, file: File, rows: Shaped, key: Option<seq<nat>>): Plan
    requires ValidRows(s, t) && Exact(t.Keys, l) && ValidShape(s, rows) && ValidKey(s, key)
  {
    ReadIsOwned(t.Keys, l, file);
    PlanOf(s, t, HeldAt(t, Read(t.Keys, l, file)), rows, key)
  }

  lemma {:induction false} ReadIsLive(t: Rows, l: Ledger, file: File)
    requires Exact(t.Keys, l)
    ensures NoRepeat(Read(t.Keys, l, file)) && forall k | 0 <= k < |Read(t.Keys, l, file)| ::
      Read(t.Keys, l, file)[k] in t
  {
    var ids := Read(t.Keys, l, file);
    ReadIsOwned(t.Keys, l, file);
    forall k | 0 <= k < |ids| ensures ids[k] in t {
      assert ids[k] in ids;
    }
  }

  lemma {:induction false} FilePlanIsValid(s: Schema, t: Rows, l: Ledger, file: File, rows: Shaped,
      key: Option<seq<nat>>)
    requires ValidRows(s, t) && Exact(t.Keys, l) && ValidShape(s, rows) && ValidKey(s, key)
    ensures FilePlan(FilePlanOf(s, t, l, file, rows, key), l, file)
    ensures ReadFrom(HeldAt(t, Read(t.Keys, l, file)), t)
  {
    var ids := Read(t.Keys, l, file);
    ReadIsLive(t, l, file);
    HeldPlanIsValid(s, t, ids, rows, key);
    IsFilePlan(FilePlanOf(s, t, l, file, rows, key), t, l, file, ids);
  }

  lemma {:induction false} IsFilePlan(p: Plan, t: Rows, l: Ledger, file: File, ids: seq<nat>)
    requires (forall k | 0 <= k < |ids| :: ids[k] in t) && ids == Read(t.Keys, l, file) && Exact(t.Keys, l)
    requires p.Valid() && p.start == t && p.stored == HeldAt(t, ids)
    ensures FilePlan(p, l, file)
  {
  }

  lemma {:induction false} HeldPlanIsValid(s: Schema, t: Rows, ids: seq<nat>, rows: Shaped, key: Option<seq<nat>>)
    requires ValidRows(s, t) && ValidShape(s, rows) && ValidKey(s, key)
    requires NoRepeat(ids) && forall k | 0 <= k < |ids| :: ids[k] in t
    ensures ReadFrom(HeldAt(t, ids), t)
    ensures PlanOf(s, t, HeldAt(t, ids), rows, key).Valid()
  {
    forall i, j ensures ReadOnce(HeldAt(t, ids), i, j) {
      assert Unlike(ids, i, j);
    }
    PlanIsValid(s, t, HeldAt(t, ids), rows, key);
  }

  lemma {:induction false} FilePlanReadsOwned(p: Plan, l: Ledger, file: File)
    requires FilePlan(p, l, file)
    ensures IdsOf(p.stored) == OwnedBy(p.start.Keys, l, file)
  {
    var ids, owned := Read(p.start.Keys, l, file), OwnedBy(p.start.Keys, l, file);
    ReadIsOwned(p.start.Keys, l, file);
    assert forall id :: id in ids <==> id in owned;
    IdsOfRead(p.stored, ids, owned);
  }

  lemma {:induction false} IdsOfRead(stored: seq<Held>, ids: seq<nat>, owned: set<nat>)
    requires ReadAs(stored, ids)
    requires forall id :: id in ids <==> id in owned
    ensures IdsOf(stored) == owned
  {
    forall id | id in ids ensures id in IdsOf(stored) {
      var k :| 0 <= k < |ids| && ids[k] == id;
      assert stored[k] in stored;
    }
  }

  /** The rows end where the ledger may record them. */
  lemma {:induction false} PlacedIsPlaceable(p: Plan, l: Ledger, file: File)
    requires FilePlan(p, l, file)
    ensures Placeable(p.start.Keys, l, file, PlacedAll(p))
  {
    var placed, rest := PlacedAll(p), p.start.Keys - IdsOf(p.stored);
    FilePlanReadsOwned(p, l, file);
    forall i, j ensures Unlike(placed, i, j) {
      if 0 <= i < j < |placed| {
        PlacedIsInjective(p, i, j);
      }
    }
    forall id | id in placed ensures id in IdsOf(p.stored) || (id > 0 && Under(rest, id - 1)) {
      var i :| 0 <= i < |placed| && placed[i] == id;
      PlacedIsOwnOrPast(p, i);
    }
  }

  lemma {:induction false} PlacedIsOwnOrPast(p: Plan, i: nat)
    requires p.Shaped() && i < |p.claims|
    ensures p.Placed(i) in IdsOf(p.stored) ||
      (p.Placed(i) > 0 && Under(p.start.Keys - IdsOf(p.stored), p.Placed(i) - 1))
  {
    if p.claims[i].Some? {
      assert p.stored[p.claims[i].value] in p.stored;
    } else {
      assert Under((p.start.Keys - IdsOf(p.stored)) + p.Claimed(), p.Base());
    }
  }

  lemma {:induction false} EndIds(p: Plan, id: nat)
    requires p.Valid()
    ensures id in p.End() <==> id in p.start.Keys - IdsOf(p.stored) || id in PlacedAll(p)
  {
    var placed := PlacedAll(p);
    LayKeys(p, |p.claims|, id);
    if id in placed {
      var i :| 0 <= i < |placed| && placed[i] == id;
    }
    if i :| 0 <= i < |p.claims| && p.Placed(i) == id {
      assert placed[i] == id;
    }
  }

  lemma {:induction false} PlanMoves(p: Plan, l: Ledger, file: File)
    requires FilePlan(p, l, file)
    ensures Moves(p.start.Keys, l, file, PlacedAll(p), p.End().Keys)
  {
    PlacedIsPlaceable(p, l, file);
    FilePlanReadsOwned(p, l, file);
    forall id: nat ensures id in p.End() <==> id in p.start.Keys - IdsOf(p.stored) || id in PlacedAll(p) {
      EndIds(p, id);
    }
  }

  /** The ledger after a reconcile: untouched when every row stayed put, else
      the file's rows recorded afresh. */
  function Settled(p: Plan, l: Ledger, file: File): Ledger
    requires p.Shaped()
  {
    Settle(p.start.Keys, l, file, PlacedAll(p))
  }

  lemma {:induction false} SettledIsExact(p: Plan, l: Ledger, file: File)
    requires FilePlan(p, l, file)
    ensures Exact(p.End().Keys, Settled(p, l, file))
    ensures Read(p.End().Keys, Settled(p, l, file), file) == PlacedAll(p)
  {
    PlanMoves(p, l, file);
    SettleKeepsExact(p.start.Keys, l, file, PlacedAll(p), p.End().Keys);
  }

  lemma {:induction false} SettledOwners(p: Plan, l: Ledger, file: File, f: File)
    requires FilePlan(p, l, file)
    ensures OwnedBy(p.End().Keys, Settled(p, l, file), f) ==
      if f == file then set id | id in PlacedAll(p) else OwnedBy(p.start.Keys, l, f)
  {
    PlanMoves(p, l, file);
    SettleOwnedBy(p.start.Keys, l, file, PlacedAll(p), p.End().Keys, f);
  }

  /** What a file's reconcile leaves, on the table and ledger it ends with. */
  lemma {:induction false} FileSettles(p: Plan, l: Ledger, file: File, t': Rows, l': Ledger)
    requires FilePlan(p, l, file) && t' == p.End() && l' == Settled(p, l, file)
    ensures Exact(t'.Keys, l') && Read(t'.Keys, l', file) == PlacedAll(p)
    ensures OnlyTouches(p.start, l, t', l', file)
  {
    SettledIsExact(p, l, file);
    FilePlanReadsOwned(p, l, file);
    EndIsWanted(p);
    forall other | other != file ensures OwnedBy(t'.Keys, l', other) == OwnedBy(p.start.Keys, l, other) {
      SettledOwners(p, l, file, other);
    }
  }
}
