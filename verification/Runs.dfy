/** Whole runs of operations on one table's index. */
module Runs {
  import opened UserTable
  import opened Reconcile
  import opened Ledger
  import opened Index
  import opened Updates

  /** An operation as a caller asks for it, for the file whose rows it changes. */
  datatype Operation =
    | InsertOne(cells: Cells, index: nat, file: File)
    | InsertMany(rows: Shaped, file: File)
    | ReconcileFile(rows: Shaped, file: File)
    | UpsertFile(rows: Shaped, file: File)
    | DeleteFile(file: File)

  ghost predicate Legal(s: Schema, op: Operation) {
    match op
    case InsertOne(cells, _, _) => |cells| == |s.columns|
    case DeleteFile(_) => true
    case _ => ValidShape(s, op.rows)
  }

  /** Perform one operation; one that fails has changed nothing. */
  method Perform(index: TableIndex, op: Operation)
    requires index.Valid() && Legal(index.store.schema, op)
    modifies index, index.store
    ensures index.Valid()
    ensures OnlyTouches(old(index.store.rows), old(index.ledger), index.store.rows, index.ledger, op.file)
  {
    match op {
      case InsertOne(cells, i, file) => var _ := index.InsertRow(cells, file, i);
      case InsertMany(rows, file) => var _ := index.InsertRows(rows, file);
      case ReconcileFile(rows, file) => var _ := index.ReconcileFileRows(rows, file);
      case UpsertFile(rows, file) => var _ := Upsert(index, rows, file);
      case DeleteFile(file) => var _ := index.DeleteRowsByFile(file);
    }
  }

  function FilesOf(ops: seq<Operation>): (files: set<File>)
    ensures forall file :: file in files <==> exists op | op in ops :: op.file == file
  {
    set op | op in ops :: op.file
  }

  /** Files outside `files` keep their rows: the same rowids, holding the same cells. */
  ghost predicate KeepsOthers(t: Rows, l: Ledger, t': Rows, l': Ledger, files: set<File>) {
    forall other | other !in files ::
      && OwnedBy(t'.Keys, l', other) == OwnedBy(t.Keys, l, other)
      && (forall id | id in OwnedBy(t.Keys, l, other) :: id in t' && t'[id] == t[id])
  }

  lemma {:induction false} KeepsOthersStep(t: Rows, l: Ledger, t1: Rows, l1: Ledger, t2: Rows, l2: Ledger,
      files: set<File>, file: File)
    requires KeepsOthers(t, l, t1, l1, files) && Exact(t1.Keys, l1) && OnlyTouches(t1, l1, t2, l2, file)
    ensures KeepsOthers(t, l, t2, l2, files + {file})
  {
    forall other | other !in files + {file}
      ensures OwnedBy(t2.Keys, l2, other) == OwnedBy(t.Keys, l, other)
      ensures forall id | id in OwnedBy(t.Keys, l, other) :: id in t2 && t2[id] == t[id]
    {
      OwnersPartition(t1.Keys, l1, other, file);
    }
  }

  /** The owners partition the live rows, in one statement. */
  ghost predicate Partitioned(ids: set<nat>, l: Ledger) {
    && (forall a, b | a != b :: OwnedBy(ids, l, a) !! OwnedBy(ids, l, b))
    && (forall id | id in ids :: exists file :: id in OwnedBy(ids, l, file))
  }

  lemma {:induction false} ExactIsPartitioned(ids: set<nat>, l: Ledger)
    requires Exact(ids, l)
    ensures Partitioned(ids, l)
  {
    forall a, b | a != b ensures OwnedBy(ids, l, a) !! OwnedBy(ids, l, b) {
      OwnersPartition(ids, l, a, b);
    }
    OwnersPartition(ids, l, "", "");
  }

  /**
   After every run of operations, in any order and whichever of them fail, the
   ledger is exact, the owners partition the live rows, and the files no
   operation named have the rows they had.
   */
  method Run(index: TableIndex, ops: seq<Operation>)
    requires index.Valid() && forall op | op in ops :: Legal(index.store.schema, op)
    modifies index, index.store
    ensures index.Valid() && Partitioned(index.Ids(), index.ledger)
    ensures KeepsOthers(old(index.store.rows), old(index.ledger), index.store.rows, index.ledger, FilesOf(ops))
  {
    ghost var t, l := index.store.rows, index.ledger;
    for i := 0 to |ops|
      invariant index.Valid()
      invariant KeepsOthers(t, l, index.store.rows, index.ledger, FilesOf(ops[..i]))
    {
      ghost var t1, l1 := index.store.rows, index.ledger;
      Perform(index, ops[i]);
      KeepsOthersStep(t, l, t1, l1, index.store.rows, index.ledger, FilesOf(ops[..i]), ops[i].file);
      assert ops[..i + 1] == ops[..i] + [ops[i]];
      assert FilesOf(ops[..i + 1]) == FilesOf(ops[..i]) + {ops[i].file};
    }
    assert ops[..|ops|] == ops;
    ExactIsPartitioned(index.Ids(), index.ledger);
  }

  /** A whole table's new rows: refilled outright, or refreshed with events told. */
  datatype Batch = Refilled(rows: Shaped) | Refreshed(rows: Shaped)

  /** Every run of batches on a table one owner fills leaves it that owner's whole. */
  method RunBatches(index: TableIndex, batches: seq<Batch>, owner: File)
    requires index.Valid() && OneBatch(index.ledger, owner)
    requires forall batch | batch in batches :: ValidShape(index.store.schema, batch.rows)
    modifies index, index.store
    ensures index.Valid() && OneBatch(index.ledger, owner) && index.Owned(owner) == index.Ids()
  {
    for i := 0 to |batches|
      invariant index.Valid() && OneBatch(index.ledger, owner)
    {
      match batches[i] {
        case Refilled(rows) => var _ := index.RefillBatchRows(rows, owner);
        case Refreshed(rows) => var _ := Refresh(index, rows, owner);
      }
    }
    BatchOwnsAll(index.Ids(), index.ledger, owner);
  }
}
