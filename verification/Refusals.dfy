/**
 Two sound end states that `reconcile_rows` refuses, as they arrive through
 `reconcile_file_rows`: three rows of one file, the last with no PRIMARY KEY, so
 that all are matched by name.
 */
module Refusals {
  import opened Wrappers
  import opened Values
  import opened UserTable
  import opened Reconcile
  import opened PrimaryKeys
  import opened Ledger
  import opened Index
  import Claims

  const FILE: File := "rows.csv"

  function Table(rows: seq<Cells>): Rows
    requires |rows| == 3
  {
    map[1 := rows[0], 2 := rows[1], 3 := rows[2]]
  }

  function AllRead(rows: seq<Cells>): seq<Held>
    requires |rows| == 3
  {
    [Held(1, rows[0]), Held(2, rows[1]), Held(3, rows[2])]
  }

  /** The ledger that lists the three rows under the file. */
  function Listed(): Ledger { Own(Ledger([], []), FILE, [1, 2, 3]) }

  function AllOf(s: Schema): seq<bool> { seq(|s.columns|, _ => true) }

  /** `before` becomes `after` in every column, the rows keeping their names,
      the second column; the last row does not change. */
  ghost predicate Moves(s: Schema, before: seq<Cells>, after: seq<Cells>) {
    && |before| == |after| == 3 && |s.columns| >= 2
    && (forall i | 0 <= i < 3 :: |before[i]| == |after[i]| == |s.columns|)
    && ValidRows(s, Table(before)) && ValidRows(s, Table(after))
    && (forall i | 0 <= i < 3 :: before[i][1] == after[i][1])
    && before[0][1] != before[1][1] && before[0][1] != before[2][1] && before[1][1] != before[2][1]
    && before[0] != after[0] && before[1] != after[1] && before[2] == after[2]
  }

  lemma {:induction false} TableHolds(rows: seq<Cells>)
    requires |rows| == 3
    ensures Table(rows)[1] == rows[0] && Table(rows)[2] == rows[1] && Table(rows)[3] == rows[2]
    ensures Table(rows).Keys == {1, 2, 3}
  {
  }

  /** The reconcile of the three rows, matched by name. */
  ghost function NamedPlan(s: Schema, before: seq<Cells>, after: seq<Cells>): (p: Plan)
    requires Moves(s, before, after)
    ensures p.Valid()
  {
    AllFitThere(s, before);
    AllFitThere(s, after);
    PlanIsValid(s, Table(before), AllRead(before), Shaped(after, AllOf(s)), Some([1]));
    PlanOf(s, Table(before), AllRead(before), Shaped(after, AllOf(s)), Some([1]))
  }

  lemma {:induction false} AllFitThere(s: Schema, rows: seq<Cells>)
    requires |rows| == 3 && AllFit(s, Table(rows))
    ensures forall i | 0 <= i < 3 :: Fits(s, rows[i]) && Stored(s, rows[i]) == rows[i]
    ensures ReadFrom(AllRead(rows), Table(rows))
  {
    TableHolds(rows);
    assert 1 in Table(rows) && 2 in Table(rows) && 3 in Table(rows);
  }

  /** Rows whose keys are distinct claim themselves. */
  lemma {:induction false} SelfClaims<K>(keys: seq<K>, i: nat)
    requires i < |keys| && forall a, b | 0 <= a < b < |keys| :: keys[a] != keys[b]
    ensures Claims.ClaimOf(keys, keys, i) == Some(i)
  {
    Claims.CountMonotone(keys, i, |keys|, keys[i]);
  }

  lemma {:induction false} NamesOf(rows: seq<Cells>)
    requires |rows| == 3 && forall i | 0 <= i < 3 :: |rows[i]| >= 2
    ensures Keys(rows, [1]) == [[rows[0][1]], [rows[1][1]], [rows[2][1]]]
  {
    assert forall i | 0 <= i < 3 :: KeyOf(rows[i], [1]) == [rows[i][1]];
  }

  lemma {:induction false} NamesMatch(s: Schema, before: seq<Cells>, after: seq<Cells>)
    requires Moves(s, before, after)
    ensures var p := NamedPlan(s, before, after);
      p.claims == [Some(0), Some(1), Some(2)] && p.wanted == Shaped(after, AllOf(s))
  {
    AllFitThere(s, before);
    AllFitThere(s, after);
    var p := NamedPlan(s, before, after);
    assert p.wanted.cells == after;
    var names := [[before[0][1]], [before[1][1]], [before[2][1]]];
    NamesOf(CellsOf(p.stored));
    NamesOf(p.wanted.cells);
    assert names[0][0] != names[1][0] && names[0][0] != names[2][0] && names[1][0] != names[2][0];
    forall i | 0 <= i < 3 ensures p.claims[i] == Some(i) {
      SelfClaims(names, i);
    }
  }

  lemma {:induction false} AllMerge(before: Cells, after: Cells, emitted: seq<bool>)
    requires |before| == |after| == |emitted| && forall c | 0 <= c < |emitted| :: emitted[c]
    ensures Merge(before, after, emitted) == after
  {
  }

  lemma {:induction false} PlacedThere(s: Schema, before: seq<Cells>, after: seq<Cells>, i: nat)
    requires Moves(s, before, after) && i < 3
    ensures var p := NamedPlan(s, before, after);
      |p.claims| == 3 && p.Placed(i) == i + 1 && p.Final(i) == after[i] && i + 1 in IdsOf(p.stored)
  {
    var p := NamedPlan(s, before, after);
    NamesMatch(s, before, after);
    assert p.stored[i] in p.stored;
    AllMerge(before[i], after[i], AllOf(s));
  }

  lemma {:induction false} EndsAfter(s: Schema, before: seq<Cells>, after: seq<Cells>)
    requires Moves(s, before, after)
    ensures NamedPlan(s, before, after).End() == Table(after)
  {
    var p := NamedPlan(s, before, after);
    EndHolds(s, before, after, 0);
    EndHolds(s, before, after, 1);
    EndHolds(s, before, after, 2);
    forall id | id in p.End() ensures id in {1, 2, 3} {
      EndHoldsOnly(s, before, after, id);
    }
    assert p.End().Keys == {1, 2, 3};
    SameTable(p.End(), after);
  }

  lemma {:induction false} EndHolds(s: Schema, before: seq<Cells>, after: seq<Cells>, i: nat)
    requires Moves(s, before, after) && i < 3
    ensures var end := NamedPlan(s, before, after).End(); i + 1 in end && end[i + 1] == after[i]
  {
    EndIsWanted(NamedPlan(s, before, after));
    PlacedThere(s, before, after, i);
  }

  lemma {:induction false} EndHoldsOnly(s: Schema, before: seq<Cells>, after: seq<Cells>, id: nat)
    requires Moves(s, before, after) && id in NamedPlan(s, before, after).End()
    ensures id in {1, 2, 3}
  {
    var p := NamedPlan(s, before, after);
    EndIsWanted(p);
    TableHolds(before);
    if id !in p.start.Keys {
      var i :| 0 <= i < |p.claims| && p.Placed(i) == id;
      NamesMatch(s, before, after);
      PlacedThere(s, before, after, i);
    }
  }

  lemma {:induction false} SameTable(t: Rows, rows: seq<Cells>)
    requires |rows| == 3 && t.Keys == {1, 2, 3} && t[1] == rows[0] && t[2] == rows[1] && t[3] == rows[2]
    ensures t == Table(rows)
  {
  }

  lemma {:induction false} ChangesWhenUnequal(p: Plan, i: nat)
    requires p.Shaped() && i < |p.claims| && p.claims[i].Some?
    requires forall c | 0 <= c < |p.wanted.emitted| :: p.wanted.emitted[c]
    ensures p.Changes(i) <==> p.stored[p.claims[i].value].cells != p.wanted.cells[i]
  {
    var was, will, at := p.stored[p.claims[i].value].cells, p.wanted.cells[i], Compared(p.wanted.emitted);
    if KeyOf(was, at) == KeyOf(will, at) {
      forall c | 0 <= c < |was| ensures was[c] == will[c] {
        assert c in at;
        var k :| 0 <= k < |at| && at[k] == c;
        assert KeyOf(was, at)[k] == KeyOf(will, at)[k];
      }
    }
  }

  /** The two updates there are to make. */
  lemma {:induction false} EditsThere(s: Schema, before: seq<Cells>, after: seq<Cells>)
    requires Moves(s, before, after)
    ensures NamedPlan(s, before, after).Edits() == EditsOf(before, after)
  {
    var p := NamedPlan(s, before, after);
    NamesMatch(s, before, after);
    ChangesWhenUnequal(p, 0);
    ChangesWhenUnequal(p, 1);
    ChangesWhenUnequal(p, 2);
    assert p.ChangedUpTo(1) == [0];
    assert p.ChangedUpTo(2) == [0, 1];
    assert p.ChangedUpTo(3) == [0, 1];
  }

  /** The key is the name, as a row leaves the PRIMARY KEY unset. */
  lemma {:induction false} NamesAreKey(candidates: seq<seq<Option<nat>>>, rows: Shaped)
    requires |candidates| >= 2 && candidates[0] == [Some(0)] && candidates[1] == [Some(1)]
    requires |rows.cells| == 3 && |rows.emitted| >= 2 && forall i | 0 <= i < 3 :: |rows.cells[i]| == |rows.emitted|
    requires rows.cells[2][0] == Null && forall i | 0 <= i < 3 :: rows.cells[i][1] != Null
    ensures RowKey(candidates, rows) == Some([1])
  {
    assert candidates[0][0].value == 0;
    assert !Fills(candidates[0], rows);
    assert candidates[1..][0] == candidates[1];
    assert Positions(candidates[1]) == [1];
  }

  /** The file's rows are read, matched and reconciled as that plan says. */
  lemma {:induction false} ArrivesAsPlan(s: Schema, before: seq<Cells>, after: seq<Cells>)
    requires Moves(s, before, after)
    ensures Exact(Table(before).Keys, Listed()) && ValidShape(s, Shaped(after, AllOf(s)))
    ensures FilePlanOf(s, Table(before), Listed(), FILE, Shaped(after, AllOf(s)), Some([1])) ==
      NamedPlan(s, before, after)
  {
    TableHolds(before);
    AllFitThere(s, after);
    ListedIsExact();
    OwnReads({1, 2, 3}, Ledger([], []), FILE, [1, 2, 3]);
    ReadsAll(s, before, after, Read(Table(before).Keys, Listed(), FILE));
  }

  lemma {:induction false} ReadsAll(s: Schema, before: seq<Cells>, after: seq<Cells>, ids: seq<nat>)
    requires Moves(s, before, after) && ids == [1, 2, 3]
    ensures HeldAt(Table(before), ids) == AllRead(before)
  {
  }

  lemma {:induction false} ListedIsExact()
    ensures Exact({1, 2, 3}, Listed())
  {
    var none: Ledger := Ledger([], []);
    assert Exact({}, none) by {
      assert forall i, j :: OtherRow(none.mapping, i, j);
      assert forall i, j :: EndsBefore(none.ranges, i, j);
      assert forall m, r :: Clear(none.mapping, none.ranges, m, r);
    }
    assert forall i, j :: Unlike([1, 2, 3], i, j);
    OwnKeepsExact({}, none, FILE, [1, 2, 3], {1, 2, 3});
  }

  /** The update of row `i`. */
  function EditThere(before: seq<Cells>, after: seq<Cells>, i: nat): Edit
    requires i < |before| && i < |after|
  {
    Edit(i + 1, before[i], after[i])
  }

  function EditsOf(before: seq<Cells>, after: seq<Cells>): seq<Edit>
    requires |before| == |after| == 3
  {
    [EditThere(before, after, 0), EditThere(before, after, 1)]
  }

  /** `p` is how the file's rows `before` become `after`: the rows read, matched
      by the key their columns give. */
  ghost predicate Arrives(s: Schema, candidates: seq<seq<Option<nat>>>, before: seq<Cells>, after: seq<Cells>, p: Plan)
    requires Moves(s, before, after)
  {
    var rows := Shaped(after, AllOf(s));
    && Exact(Table(before).Keys, Listed()) && ValidShape(s, rows)
    && RowKey(candidates, rows) == Some([1])
    && FilePlanOf(s, Table(before), Listed(), FILE, rows, Some([1])) == p
  }

  /** The plan leads from a sound table to a sound table, and is refused. */
  ghost predicate SoundYetRefused(p: Plan, before: Rows, after: Rows) {
    && p.Valid() && p.start == before && p.End() == after
    && ValidRows(p.schema, before) && ValidRows(p.schema, after) && !Reachable(p)
  }

  /** Every row has a name, and the last no PRIMARY KEY. */
  predicate LastUnset(rows: seq<Cells>) {
    |rows| == 3 && (forall i | 0 <= i < 3 :: |rows[i]| >= 2 && rows[i][1] != Null) && rows[2][0] == Null
  }

  predicate ByColumn(candidates: seq<seq<Option<nat>>>) {
    |candidates| >= 2 && candidates[0] == [Some(0)] && candidates[1] == [Some(1)]
  }

  lemma {:induction false} ArrivesByName(s: Schema, candidates: seq<seq<Option<nat>>>, before: seq<Cells>,
      after: seq<Cells>)
    requires Moves(s, before, after) && ByColumn(candidates) && LastUnset(after)
    ensures Arrives(s, candidates, before, after, NamedPlan(s, before, after))
  {
    NamesAreKey(candidates, Shaped(after, AllOf(s)));
    ArrivesAsPlan(s, before, after);
  }

  lemma {:induction false} RefusedByItsEdits(s: Schema, before: seq<Cells>, after: seq<Cells>)
    requires Moves(s, before, after)
    requires InColumns(s.groups, AllOf(s)) && Aligned(EditsOf(before, after), AllOf(s))
    requires !NoneRefused(s.groups, EditsOf(before, after), AllOf(s))
    ensures SoundYetRefused(NamedPlan(s, before, after), Table(before), Table(after))
  {
    EndsAfter(s, before, after);
    EditsThere(s, before, after);
    AllFitThere(s, before);
    AllFitThere(s, after);
    ReachableIffNoneRefused(s, Table(before), AllRead(before), Shaped(after, AllOf(s)), Some([1]));
  }

  ghost predicate RefusedOnArrival(s: Schema, candidates: seq<seq<Option<nat>>>, before: seq<Cells>,
      after: seq<Cells>) {
    && Moves(s, before, after)
    && Arrives(s, candidates, before, after, NamedPlan(s, before, after))
    && SoundYetRefused(NamedPlan(s, before, after), Table(before), Table(after))
  }

  lemma {:induction false} ArrivesAndIsRefused(s: Schema, candidates: seq<seq<Option<nat>>>, before: seq<Cells>,
      after: seq<Cells>)
    requires Moves(s, before, after) && ByColumn(candidates) && LastUnset(after)
    requires InColumns(s.groups, AllOf(s)) && Aligned(EditsOf(before, after), AllOf(s))
    requires !NoneRefused(s.groups, EditsOf(before, after), AllOf(s))
    ensures RefusedOnArrival(s, candidates, before, after)
  {
    ArrivesByName(s, candidates, before, after);
    RefusedByItsEdits(s, before, after);
  }

  // ----------------------------------------------- two PRIMARY KEY values swapped

  /** A PRIMARY KEY and a UNIQUE name. */
  function PairSchema(): Schema {
    Schema(["id", "name"], [Group([0], true), Group([1], false)], (c: nat, v: Value) => v)
  }

  function PairRows(first: int, second: int): seq<Cells> {
    [[Integer(first), Text("x")], [Integer(second), Text("y")], [Null, Text("z")]]
  }

  lemma {:induction false} PairIsValid(first: int, second: int)
    requires first != second
    ensures ValidRows(PairSchema(), Table(PairRows(first, second)))
  {
    var s, t := PairSchema(), Table(PairRows(first, second));
    forall g, a, b ensures UserTable.Differ(s, t, g, a, b) {
      if g in s.groups && a in t && b in t {
        assert KeyOf(t[a], g.columns)[0] == t[a][g.columns[0]] && KeyOf(t[b], g.columns)[0] == t[b][g.columns[0]];
      }
    }
  }

  lemma {:induction false} PairTakesHeldKey()
    ensures var s, edits := PairSchema(), EditsOf(PairRows(1, 2), PairRows(2, 1));
      InColumns(s.groups, AllOf(s)) && Aligned(edits, AllOf(s)) && !NoneRefused(s.groups, edits, AllOf(s))
  {
    var s, edits := PairSchema(), EditsOf(PairRows(1, 2), PairRows(2, 1));
    AllMerge(edits[0].before, edits[0].values, AllOf(s));
    assert KeyOf(edits[0].values, [0]) == [Integer(2)] == KeyOf(edits[1].before, [0]);
    assert HasWanted(edits, AllOf(s), s.groups[0], 0, 1);
    assert FirstWaits(s.groups, edits, AllOf(s), 0, 0);
    assert RefusedAt(s.groups, edits, AllOf(s), 0);
  }

  lemma {:induction false} PairMoves()
    ensures Moves(PairSchema(), PairRows(1, 2), PairRows(2, 1)) && LastUnset(PairRows(2, 1))
  {
    PairIsValid(1, 2);
    PairIsValid(2, 1);
  }

  /** The first two rows swap their PRIMARY KEY values: the first update takes
      what the second row still has. */
  lemma {:induction false} SwappedPrimaryKeyIsRefused()
    ensures RefusedOnArrival(PairSchema(), [[Some(0)], [Some(1)]], PairRows(1, 2), PairRows(2, 1))
  {
    PairMoves();
    PairTakesHeldKey();
    ArrivesAndIsRefused(PairSchema(), [[Some(0)], [Some(1)]], PairRows(1, 2), PairRows(2, 1));
  }

  // ------------------------------------- a PRIMARY KEY kept by a row held up before

  /** A PRIMARY KEY, a UNIQUE name and a UNIQUE slot. */
  function SlotSchema(): Schema {
    Schema(["id", "name", "slot"], [Group([0], true), Group([1], false), Group([2], false)], (c: nat, v: Value) => v)
  }

  function SlotRows(first: int, second: int, a: string, b: string): seq<Cells> {
    [[Integer(first), Text("x"), Text(a)], [Integer(second), Text("y"), Text(b)], [Null, Text("z"), Text("c")]]
  }

  lemma {:induction false} SlotIsValid(first: int, second: int, a: string, b: string)
    requires first != second && a != b && a != "c" && b != "c"
    ensures ValidRows(SlotSchema(), Table(SlotRows(first, second, a, b)))
  {
    var s, t := SlotSchema(), Table(SlotRows(first, second, a, b));
    forall g, i, j ensures UserTable.Differ(s, t, g, i, j) {
      if g in s.groups && i in t && j in t {
        assert KeyOf(t[i], g.columns)[0] == t[i][g.columns[0]] && KeyOf(t[j], g.columns)[0] == t[j][g.columns[0]];
      }
    }
  }

  lemma {:induction false} SlotHoldsUpKey()
    ensures var s, edits := SlotSchema(), EditsOf(SlotRows(1, 2, "a", "b"), SlotRows(3, 1, "b", "d"));
      && InColumns(s.groups, AllOf(s)) && Aligned(edits, AllOf(s)) && !NoneRefused(s.groups, edits, AllOf(s))
      && !HasWanted(edits, AllOf(s), s.groups[0], 0, 1)
  {
    var s, edits := SlotSchema(), EditsOf(SlotRows(1, 2, "a", "b"), SlotRows(3, 1, "b", "d"));
    AllMerge(edits[0].before, edits[0].values, AllOf(s));
    AllMerge(edits[1].before, edits[1].values, AllOf(s));
    SlotIsHeldUp(s, edits);
    assert KeyOf(edits[0].values, [0])[0] == Integer(3) && KeyOf(edits[1].before, [0])[0] == Integer(2);
    assert KeyOf(edits[1].values, [0]) == [Integer(1)] == KeyOf(edits[0].before, [0]);
    assert HasWanted(edits, AllOf(s), s.groups[0], 1, 0);
    assert FirstWaits(s.groups, edits, AllOf(s), 1, 0);
    assert RefusedAt(s.groups, edits, AllOf(s), 1);
  }

  lemma {:induction false} SlotIsHeldUp(s: Schema, edits: seq<Edit>)
    requires s == SlotSchema() && edits == EditsOf(SlotRows(1, 2, "a", "b"), SlotRows(3, 1, "b", "d"))
    ensures InColumns(s.groups, AllOf(s)) && Aligned(edits, AllOf(s)) && HeldUp(s.groups, edits, AllOf(s), 0)
  {
    AllMerge(edits[0].before, edits[0].values, AllOf(s));
    assert KeyOf(edits[0].values, [2]) == [Text("b")] == KeyOf(edits[1].before, [2]);
    assert HasWanted(edits, AllOf(s), s.groups[2], 0, 1);
    assert s.groups[2] in s.groups && WaitsOn(s.groups, edits, AllOf(s), s.groups[2], 0);
  }

  lemma {:induction false} SlotMoves()
    ensures Moves(SlotSchema(), SlotRows(1, 2, "a", "b"), SlotRows(3, 1, "b", "d")) &&
      LastUnset(SlotRows(3, 1, "b", "d"))
  {
    SlotIsValid(1, 2, "a", "b");
    SlotIsValid(3, 1, "b", "d");
  }

  /**
   No update takes the PRIMARY KEY of a row updated after it, and the end state
   is refused all the same: the first row is held up by its slot, so it still
   has the PRIMARY KEY the second update asks for.
   */
  lemma {:induction false} HeldUpKeyIsRefused()
    ensures var s, edits := SlotSchema(), EditsOf(SlotRows(1, 2, "a", "b"), SlotRows(3, 1, "b", "d"));
      Aligned(edits, AllOf(s)) && !HasWanted(edits, AllOf(s), s.groups[0], 0, 1)
    ensures RefusedOnArrival(SlotSchema(), [[Some(0)], [Some(1)], [Some(2)]], SlotRows(1, 2, "a", "b"),
      SlotRows(3, 1, "b", "d"))
  {
    SlotMoves();
    SlotHoldsUpKey();
    ArrivesAndIsRefused(SlotSchema(), [[Some(0)], [Some(1)], [Some(2)]], SlotRows(1, 2, "a", "b"),
      SlotRows(3, 1, "b", "d"));
  }
}
