/**
 `reconcile_rows` (db.rs): edit a table in place until the stored rows equal the
 wanted ones, deleting, updating, deferring the updates a UNIQUE value blocks,
 re-placing those at their rowids, and inserting.
 */
module Reconcile {
  import opened Wrappers
  import opened Values
  import opened UserTable
  import Claims

  /** Rows laid out in the table's column order; `emitted` marks the columns
      some row carried. */
  datatype Shaped = Shaped(cells: seq<Cells>, emitted: seq<bool>)

  ghost predicate ValidShape(s: Schema, rows: Shaped) {
    |rows.emitted| == |s.columns| && forall i | 0 <= i < |rows.cells| :: |rows.cells[i]| == |s.columns|
  }

  function AsStored(s: Schema, rows: Shaped): (r: Shaped)
    ensures |r.cells| == |rows.cells| && r.emitted == rows.emitted
    ensures forall i | 0 <= i < |rows.cells| :: |r.cells[i]| == |rows.cells[i]|
    ensures forall i, c | 0 <= i < |rows.cells| && 0 <= c < |rows.cells[i]| ::
      r.cells[i][c] == s.store(c, rows.cells[i][c])
  {
    rows.(cells := seq(|rows.cells|, i requires 0 <= i < |rows.cells| => Stored(s, rows.cells[i])))
  }

  lemma {:induction false} AsStoredFits(s: Schema, rows: Shaped)
    requires ValidSchema(s) && ValidShape(s, rows)
    ensures ValidShape(s, AsStored(s, rows))
    ensures forall i | 0 <= i < |rows.cells| :: Fits(s, AsStored(s, rows).cells[i])
  {
  }

  /** A row read back: its rowid and its cells. */
  datatype Held = Held(id: nat, cells: Cells)

  ghost predicate ReadFrom(stored: seq<Held>, t: Rows) {
    && (forall i | 0 <= i < |stored| :: stored[i].id in t && t[stored[i].id] == stored[i].cells)
    && (forall i, j :: ReadOnce(stored, i, j))
  }

  /** Places `i` and `j` of what was read hold different rows. */
  predicate ReadOnce(stored: seq<Held>, i: int, j: int) { 0 <= i < j < |stored| ==> stored[i].id != stored[j].id }

  /** Wanted rows `i` and `j` do not claim the same row. */
  predicate ClaimOnce(claims: seq<Option<nat>>, i: int, j: int) {
    0 <= i < j < |claims| && claims[i].Some? ==> claims[i] != claims[j]
  }

  function IdsOf(stored: seq<Held>): set<nat> { set h | h in stored :: h.id }

  /** The positions of the emitted columns. */
  function Compared(emitted: seq<bool>): (r: seq<nat>)
    ensures forall c | c in r :: c < |emitted| && emitted[c]
    ensures forall c | 0 <= c < |emitted| && emitted[c] :: c in r
  {
    if emitted == [] then []
    else
      var rest := Compared(emitted[..|emitted| - 1]);
      if emitted[|emitted| - 1] then rest + [|emitted| - 1] else rest
  }

  /** What rows are matched by: the key, or everything compared. */
  function MatchOn(key: Option<seq<nat>>, emitted: seq<bool>): seq<nat> {
    if key.Some? then key.value else Compared(emitted)
  }

  ghost predicate ValidKey(s: Schema, key: Option<seq<nat>>) {
    key.Some? ==> forall c | c in key.value :: c < |s.columns|
  }

  function Keys(rows: seq<Cells>, on: seq<nat>): (r: seq<seq<Value>>)
    requires forall i | 0 <= i < |rows| :: forall c | c in on :: c < |rows[i]|
    ensures |r| == |rows|
  {
    seq(|rows|, i requires 0 <= i < |rows| => KeyOf(rows[i], on))
  }

  function CellsOf(stored: seq<Held>): (r: seq<Cells>)
    ensures |r| == |stored|
  {
    seq(|stored|, i requires 0 <= i < |stored| => stored[i].cells)
  }

  /** One row's change in place: its rowid, its cells before, the wanted ones. */
  datatype Edit = Edit(id: nat, before: Cells, values: Cells)

  /** A reconcile's inputs once rows are matched, on the table it starts from. */
  datatype Plan = Plan(schema: Schema, start: Rows, stored: seq<Held>, wanted: Shaped, claims: seq<Option<nat>>)
  {
    ghost predicate Valid() {
      && ValidRows(schema, start)
      && ReadFrom(stored, start)
      && ValidShape(schema, wanted)
      && (forall i | 0 <= i < |wanted.cells| :: Fits(schema, wanted.cells[i]))
      && |claims| == |wanted.cells|
      && (forall i | 0 <= i < |claims| && claims[i].Some? :: claims[i].value < |stored|)
      && (forall i, j :: ClaimOnce(claims, i, j))
      && Shaped()
    }

    /** The cells wanted row `i` ends up with: a matched row keeps the columns
        no row emits. */
    function Final(i: nat): (r: Cells)
      requires i < |claims| && i < |wanted.cells| && |wanted.cells[i]| == |wanted.emitted|
      requires claims[i].Some? ==> claims[i].value < |stored| && |stored[claims[i].value].cells| == |wanted.emitted|
      ensures |r| == |wanted.emitted|
    {
      if claims[i].Some? then Merge(stored[claims[i].value].cells, wanted.cells[i], wanted.emitted)
      else wanted.cells[i]
    }

    function Claimed(): set<nat> {
      set c | c in claims && c.Some? && c.value < |stored| :: stored[c.value].id
    }

    /** The largest rowid left once unmatched rows are gone. */
    function Base(): nat { MaxId((start.Keys - IdsOf(stored)) + Claimed()) }

    /** How many of the first `n` wanted rows are new. */
    function News(n: nat): nat
      requires n <= |claims|
    {
      if n == 0 then 0 else News(n - 1) + if claims[n - 1].None? then 1 else 0
    }

    /** Where wanted row `i` ends up. */
    function Placed(i: nat): nat
      requires i < |claims| && (claims[i].Some? ==> claims[i].value < |stored|)
    {
      if claims[i].Some? then stored[claims[i].value].id else Base() + 1 + News(i)
    }

    /** The stored positions below `n` no wanted row claims. */
    function RemovedUpTo(n: nat): (r: seq<nat>)
      requires n <= |stored|
      ensures forall k | 0 <= k < |r| :: r[k] < n && Some(r[k]) !in claims
      ensures forall at | 0 <= at < n && Some(at) !in claims :: at in r
    {
      if n == 0 then [] else RemovedUpTo(n - 1) + if Some(n - 1) in claims then [] else [n - 1]
    }

    /** The new rows among the first `n` wanted ones. */
    function AddedUpTo(n: nat): (r: seq<nat>)
      requires n <= |claims|
      ensures forall k | 0 <= k < |r| :: r[k] < n && claims[r[k]].None?
      ensures forall i | 0 <= i < n && claims[i].None? :: i in r
      ensures |r| == News(n)
    {
      if n == 0 then [] else AddedUpTo(n - 1) + if claims[n - 1].None? then [n - 1] else []
    }

    /** Whether wanted row `i` changes the row it claims. */
    predicate Changes(i: nat)
      requires Shaped() && i < |claims|
    {
      claims[i].Some? &&
      KeyOf(stored[claims[i].value].cells, Compared(wanted.emitted)) != KeyOf(wanted.cells[i], Compared(wanted.emitted))
    }

    /** The wanted rows among the first `n` that change the row they claim. */
    function ChangedUpTo(n: nat): (r: seq<nat>)
      requires Shaped() && n <= |claims|
      ensures forall k | 0 <= k < |r| :: r[k] < n && Changes(r[k])
      ensures forall i | 0 <= i < n && Changes(i) :: i in r
    {
      if n == 0 then [] else ChangedUpTo(n - 1) + if Changes(n - 1) then [n - 1] else []
    }

    /** Those changes in place, in order. */
    function Edits(): (r: seq<Edit>)
      requires Shaped()
    {
      var changed := ChangedUpTo(|claims|);
      seq(|changed|, k requires 0 <= k < |changed| => EditOf(changed[k]))
    }

    function EditOf(i: nat): Edit
      requires Shaped() && i < |claims| && claims[i].Some?
    {
      Edit(stored[claims[i].value].id, stored[claims[i].value].cells, wanted.cells[i])
    }

    predicate Shaped() {
      && |claims| == |wanted.cells|
      && (forall i | 0 <= i < |claims| :: |wanted.cells[i]| == |wanted.emitted|)
      && (forall i | 0 <= i < |claims| && claims[i].Some? :: claims[i].value < |stored|)
      && (forall i | 0 <= i < |stored| :: |stored[i].cells| == |wanted.emitted|)
    }

    /** The wanted end state after the first `n` wanted rows, over the rows
        the caller did not read. */
    ghost function Lay(n: nat): Rows
      requires Valid() && n <= |claims|
    {
      if n == 0 then start - IdsOf(stored) else Lay(n - 1)[Placed(n - 1) := Final(n - 1)]
    }

    /** The wanted end state. */
    ghost function End(): Rows
      requires Valid()
    {
      Lay(|claims|)
    }
  }

  /** Each position is listed before those after it. */
  ghost predicate Rises(at: seq<nat>) { forall j, k :: ListedBefore(at, j, k) }

  predicate ListedBefore(at: seq<nat>, j: int, k: int) { 0 <= j < k < |at| ==> at[j] < at[k] }

  lemma {:induction false} RisesOn(at: seq<nat>, n: nat)
    requires Rises(at) && forall k | 0 <= k < |at| :: at[k] < n
    ensures Rises(at + [n])
  {
    forall j, k ensures ListedBefore(at + [n], j, k) {
      assert ListedBefore(at, j, k);
    }
  }

  lemma {:induction false} ChangedRises(p: Plan, n: nat)
    requires p.Shaped() && n <= |p.claims|
    ensures Rises(p.ChangedUpTo(n))
  {
    if n > 0 {
      ChangedRises(p, n - 1);
      var before := p.ChangedUpTo(n - 1);
      if p.Changes(n - 1) {
        RisesOn(before, n - 1);
      } else {
        assert p.ChangedUpTo(n) == before + [] == before;
      }
    }
  }

  lemma {:induction false} NewsMonotone(p: Plan, m: nat, n: nat)
    requires m <= n <= |p.claims|
    ensures p.News(m) <= p.News(n)
    ensures m < n && p.claims[m].None? ==> p.News(m) < p.News(n)
    decreases n
  {
    if m < n {
      NewsMonotone(p, m, n - 1);
    }
  }

  /** Every wanted row has a rowid of its own, and none is another owner's. */
  lemma {:induction false} PlacedIsInjective(p: Plan, i: nat, j: nat)
    requires p.Valid() && i < |p.claims| && j < |p.claims|
    ensures i != j ==> p.Placed(i) != p.Placed(j)
    ensures p.Placed(i) !in p.start.Keys - IdsOf(p.stored)
    ensures p.claims[i].Some? ==> p.Placed(i) in p.Claimed() && p.Placed(i) in p.start
  {
    var m := (p.start.Keys - IdsOf(p.stored)) + p.Claimed();
    forall k | 0 <= k < |p.claims| && p.claims[k].Some?
      ensures p.Placed(k) in p.Claimed() && p.Placed(k) in IdsOf(p.stored) && p.Placed(k) in p.start
    {
      assert p.claims[k] in p.claims;
      assert p.stored[p.claims[k].value] in p.stored;
    }
    if p.claims[i].None? && p.claims[j].None? {
      if i < j {
        NewsMonotone(p, i, j);
      } else if j < i {
        NewsMonotone(p, j, i);
      }
    } else if p.claims[i].Some? && p.claims[j].Some? && i != j {
      ClaimsDiffer(p, i, j);
      SameHeld(p.stored, p.start, p.claims[i].value, p.claims[j].value);
    }
  }

  lemma {:induction false} ClaimsDiffer(p: Plan, i: nat, j: nat)
    requires p.Valid() && i < |p.claims| && j < |p.claims| && i != j && p.claims[i].Some?
    ensures p.claims[i] != p.claims[j]
  {
    assert ClaimOnce(p.claims, i, j) && ClaimOnce(p.claims, j, i);
  }

  /** Two places of what was read hold one rowid only if they are one place. */
  lemma {:induction false} SameHeld(stored: seq<Held>, t: Rows, a: nat, b: nat)
    requires ReadFrom(stored, t) && a < |stored| && b < |stored|
    ensures stored[a].id == stored[b].id ==> a == b
  {
    assert ReadOnce(stored, a, b) && ReadOnce(stored, b, a);
  }

  lemma {:induction false} LayAt(p: Plan, n: nat, i: nat)
    requires p.Valid() && i < n <= |p.claims|
    ensures p.Placed(i) in p.Lay(n) && p.Lay(n)[p.Placed(i)] == p.Final(i)
  {
    if i + 1 < n {
      PlacedIsInjective(p, i, n - 1);
      LayAt(p, n - 1, i);
    }
  }

  lemma {:induction false} LayKeys(p: Plan, n: nat, id: nat)
    requires p.Valid() && n <= |p.claims|
    ensures id in p.Lay(n) <==> id in p.start.Keys - IdsOf(p.stored) || exists i | 0 <= i < n :: p.Placed(i) == id
    ensures id in p.start.Keys - IdsOf(p.stored) ==> p.Lay(n)[id] == p.start[id]
  {
    if n > 0 {
      LayKeys(p, n - 1, id);
      PlacedIsInjective(p, n - 1, n - 1);
    }
  }

  /** The end state row by row: the wanted rows where they were placed, and
      every row the caller did not read as it was. */
  lemma {:induction false} EndIsWanted(p: Plan)
    requires p.Valid()
    ensures forall i | 0 <= i < |p.claims| :: p.Placed(i) in p.End() && p.End()[p.Placed(i)] == p.Final(i)
    ensures forall i, c | 0 <= i < |p.claims| && 0 <= c < |p.wanted.emitted| ::
      p.Final(i)[c] ==
        if p.claims[i].Some? && !p.wanted.emitted[c] then p.stored[p.claims[i].value].cells[c] else p.wanted.cells[i][c]
    ensures forall id | id in p.start.Keys - IdsOf(p.stored) :: id in p.End() && p.End()[id] == p.start[id]
    ensures forall id | id in p.End() ::
      id in p.start.Keys - IdsOf(p.stored) || exists i | 0 <= i < |p.claims| :: p.Placed(i) == id
  {
    forall i | 0 <= i < |p.claims| ensures p.Placed(i) in p.End() && p.End()[p.Placed(i)] == p.Final(i) {
      LayAt(p, |p.claims|, i);
    }
    forall id ensures id in p.End() ==>
      id in p.start.Keys - IdsOf(p.stored) || exists i | 0 <= i < |p.claims| :: p.Placed(i) == id {
      LayKeys(p, |p.claims|, id);
    }
    forall id | id in p.start.Keys - IdsOf(p.stored) ensures id in p.End() && p.End()[id] == p.start[id] {
      LayKeys(p, |p.claims|, id);
    }
  }

  lemma {:induction false} EndFits(p: Plan)
    requires p.Valid()
    ensures AllFit(p.schema, p.End())
  {
    EndIsWanted(p);
    forall id | id in p.End() ensures Fits(p.schema, p.End()[id]) {
      if id !in p.start.Keys - IdsOf(p.stored) {
        var i :| 0 <= i < |p.claims| && p.Placed(i) == id;
      }
    }
  }

  // ----------------------------------------------------------------- editing

  function Merged(e: Edit, emitted: seq<bool>): Cells
    requires |e.before| == |e.values| == |emitted|
  {
    Merge(e.before, e.values, emitted)
  }

  /** Edits of distinct rows, with cells the table can hold. */
  ghost predicate FitEdits(s: Schema, edits: seq<Edit>, emitted: seq<bool>) {
    && Aligned(edits, emitted) && |emitted| == |s.columns|
    && (forall k | 0 <= k < |edits| :: Fits(s, edits[k].before) && Fits(s, edits[k].values))
    && (forall j, k :: OtherEdit(edits, j, k))
  }

  /** Edits `j` and `k` are of different rows. */
  predicate OtherEdit(edits: seq<Edit>, j: int, k: int) { 0 <= j < k < |edits| ==> edits[j].id != edits[k].id }

  lemma {:induction false} EditsOfOne(edits: seq<Edit>, j: nat, k: nat)
    requires (forall a, b :: OtherEdit(edits, a, b)) && j < |edits| && k < |edits|
    ensures edits[j].id == edits[k].id ==> j == k
  {
    assert OtherEdit(edits, j, k) && OtherEdit(edits, k, j);
  }

  predicate Aligned(edits: seq<Edit>, emitted: seq<bool>) {
    forall k | 0 <= k < |edits| :: |edits[k].before| == |edits[k].values| == |emitted|
  }

  /** The edits from `u` on are still to be made to `t`. */
  ghost predicate ValidEdits(s: Schema, t: Rows, edits: seq<Edit>, u: nat, emitted: seq<bool>) {
    && ValidRows(s, t) && FitEdits(s, edits, emitted) && u <= |edits|
    && (forall k | u <= k < |edits| :: edits[k].id in t && t[edits[k].id] == edits[k].before)
  }

  /**
   Whether updating `t` row by row from edit `u` on, passing over what a UNIQUE
   value blocks, meets a PRIMARY KEY already taken: the engine gives that its
   own code, which the source hands back instead of deferring the row.
   */
  predicate HitsPrimary(s: Schema, t: Rows, edits: seq<Edit>, u: nat, emitted: seq<bool>)
    requires Rectangular(s, t, emitted) && Aligned(edits, emitted) && u <= |edits|
    decreases |edits| - u
  {
    if u == |edits| then false
    else
      var cells := Merged(edits[u], emitted);
      match Violation(s.groups, t, edits[u].id, cells)
      case None => HitsPrimary(s, t[edits[u].id := cells], edits, u + 1, emitted)
      case Some(code) => code.PrimaryKey? || HitsPrimary(s, t, edits, u + 1, emitted)
  }

  predicate Rectangular(s: Schema, t: Rows, emitted: seq<bool>) {
    && |emitted| == |s.columns|
    && (forall g | g in s.groups :: forall c | c in g.columns :: c < |emitted|)
    && (forall id | id in t :: |t[id]| == |emitted|)
  }

  lemma {:induction false} MergeFits(s: Schema, before: Cells, values: Cells, emitted: seq<bool>)
    requires Fits(s, before) && Fits(s, values) && |emitted| == |s.columns|
    ensures Fits(s, Merge(before, values, emitted))
    ensures Stored(s, Merge(before, values, emitted)) == Merge(before, values, emitted)
  {
  }

  function EditIds(edits: seq<Edit>): seq<nat> { seq(|edits|, k requires 0 <= k < |edits| => edits[k].id) }

  ghost predicate Agrees(t: Rows, end: Rows) { forall id | id in t :: id in end && t[id] == end[id] }

  function SetOf(ids: seq<nat>): set<nat> { set id | id in ids }

  method DeleteEach(store: TableStore, ids: seq<nat>)
    requires store.Valid()
    modifies store
    ensures store.Valid()
    ensures store.rows == old(store.rows) - SetOf(ids)
  {
    for k := 0 to |ids|
      invariant store.Valid()
      invariant store.rows == old(store.rows) - SetOf(ids[..k])
    {
      assert ids[..k + 1] == ids[..k] + [ids[k]];
      store.Delete(ids[k]);
    }
    assert ids[..|ids|] == ids;
  }

  /** What the updates before `u` have made of `start`: each edited row is as
      it should be, or blocked and as it was; no other row moved. */
  ghost predicate Updated(start: Rows, t: Rows, edits: seq<Edit>, u: nat, blocked: seq<nat>, emitted: seq<bool>)
    requires u <= |edits| && Aligned(edits, emitted)
  {
    && t.Keys == start.Keys
    && (forall k | 0 <= k < u :: edits[k].id in t)
    && (forall i | 0 <= i < |blocked| :: blocked[i] < u)
    && (forall i, j | 0 <= i < j < |blocked| :: blocked[i] < blocked[j])
    && (forall k | 0 <= k < u :: k in blocked || t[edits[k].id] == Merged(edits[k], emitted))
    && (forall id | id in t && (forall k | 0 <= k < u :: edits[k].id != id) :: t[id] == start[id])
  }

  lemma {:induction false} UpdatedStep(start: Rows, t: Rows, edits: seq<Edit>, u: nat, blocked: seq<nat>,
      emitted: seq<bool>)
    requires u < |edits| && Aligned(edits, emitted)
    requires forall j, k :: OtherEdit(edits, j, k)
    requires edits[u].id in t && Updated(start, t, edits, u, blocked, emitted)
    ensures Updated(start, t[edits[u].id := Merged(edits[u], emitted)], edits, u + 1, blocked, emitted)
    ensures Updated(start, t, edits, u + 1, blocked + [u], emitted)
  {
    forall k | 0 <= k < u ensures edits[k].id != edits[u].id {
      EditsOfOne(edits, k, u);
    }
  }

  /** One update, and what it leaves to do. */
  lemma {:induction false} HitsPrimaryStep(s: Schema, t: Rows, edits: seq<Edit>, u: nat, emitted: seq<bool>)
    requires ValidEdits(s, t, edits, u, emitted) && u < |edits|
    ensures var cells := Merged(edits[u], emitted);
      var v := Violation(s.groups, t, edits[u].id, cells);
      && Stored(s, cells) == cells
      && ValidEdits(s, t, edits, u + 1, emitted)
      && (v.None? ==> ValidEdits(s, t[edits[u].id := cells], edits, u + 1, emitted))
      && (v.None? ==>
        HitsPrimary(s, t, edits, u, emitted) == HitsPrimary(s, t[edits[u].id := cells], edits, u + 1, emitted))
      && (v == Some(Unique) ==> HitsPrimary(s, t, edits, u, emitted) == HitsPrimary(s, t, edits, u + 1, emitted))
      && (v == Some(PrimaryKey) ==> HitsPrimary(s, t, edits, u, emitted))
  {
    MergeFits(s, edits[u].before, edits[u].values, emitted);
    PlacingKeepsDistinct(s, t, edits[u].id, Merged(edits[u], emitted));
    forall k | u < k < |edits| ensures edits[k].id != edits[u].id {
      EditsOfOne(edits, u, k);
    }
  }

  /** Update each row in place, setting aside those a UNIQUE value blocks. */
  method UpdateEach(store: TableStore, edits: seq<Edit>, emitted: seq<bool>)
    returns (blocked: seq<nat>, failed: Option<Constraint>, done: nat)
    requires ValidEdits(store.schema, store.rows, edits, 0, emitted)
    modifies store
    ensures store.Valid() && done <= |edits|
    ensures failed.Some? <==> HitsPrimary(store.schema, old(store.rows), edits, 0, emitted)
    ensures failed.None? ==> done == |edits|
    ensures Updated(old(store.rows), store.rows, edits, done, blocked, emitted)
  {
    blocked, failed, done := [], None, 0;
    while done < |edits|
      invariant done <= |edits| && failed.None?
      invariant ValidEdits(store.schema, store.rows, edits, done, emitted)
      invariant HitsPrimary(store.schema, store.rows, edits, done, emitted) ==
        HitsPrimary(store.schema, old(store.rows), edits, 0, emitted)
      invariant Updated(old(store.rows), store.rows, edits, done, blocked, emitted)
    {
      blocked, failed := UpdateOne(store, edits, done, emitted, blocked, old(store.rows));
      if failed.Some? {
        return;
      }
      done := done + 1;
    }
  }

  method UpdateOne(store: TableStore, edits: seq<Edit>, u: nat, emitted: seq<bool>, blocked: seq<nat>,
      ghost start: Rows)
    returns (blocked': seq<nat>, failed: Option<Constraint>)
    requires u < |edits| && ValidEdits(store.schema, store.rows, edits, u, emitted)
    requires Updated(start, store.rows, edits, u, blocked, emitted)
    modifies store
    ensures store.Valid()
    ensures failed.None? ==> ValidEdits(store.schema, store.rows, edits, u + 1, emitted)
    ensures failed.None? ==>
      HitsPrimary(store.schema, old(store.rows), edits, u, emitted) ==
      HitsPrimary(store.schema, store.rows, edits, u + 1, emitted)
    ensures failed.None? ==> Updated(start, store.rows, edits, u + 1, blocked', emitted)
    ensures failed.Some? ==>
      && HitsPrimary(store.schema, old(store.rows), edits, u, emitted)
      && store.rows == old(store.rows) && blocked' == blocked
  {
    var e := edits[u];
    blocked' := blocked;
    HitsPrimaryStep(store.schema, store.rows, edits, u, emitted);
    UpdatedStep(start, store.rows, edits, u, blocked, emitted);
    failed := store.Update(e.id, e.values, emitted);
    if failed == Some(Unique) {
      blocked', failed := blocked + [u], None;
    }
  }

  lemma {:induction false} Untouched(start: Rows, t: Rows, edits: seq<Edit>, u: nat, blocked: seq<nat>,
      emitted: seq<bool>)
    requires u <= |edits| && Aligned(edits, emitted)
    requires Updated(start, t, edits, u, blocked, emitted)
    ensures forall id | id in t && id !in EditIds(edits) :: t[id] == start[id]
  {
    forall id | id in t && id !in EditIds(edits) ensures t[id] == start[id] {
      assert forall k | 0 <= k < u :: EditIds(edits)[k] == edits[k].id;
    }
  }

  /** Take the blocked rows out and put each back at its rowid, changed. */
  method ReplaceEach(store: TableStore, edits: seq<Edit>, emitted: seq<bool>, ghost end: Rows)
    returns (failed: Option<Constraint>)
    requires store.Valid() && FitEdits(store.schema, edits, emitted) && AllFit(store.schema, end)
    requires forall k | 0 <= k < |edits| ::
      edits[k].id in store.rows && edits[k].id in end && end[edits[k].id] == Merged(edits[k], emitted)
    requires Agrees(store.rows - SetOf(EditIds(edits)), end)
    modifies store
    ensures store.Valid() && Agrees(store.rows, end)
    ensures old(store.rows).Keys - SetOf(EditIds(edits)) <= store.rows.Keys
    ensures failed.None? ==> store.rows.Keys == old(store.rows).Keys
    ensures Distinct(store.schema, end) ==> failed.None?
  {
    var ids := EditIds(edits);
    DeleteEach(store, ids);
    ghost var kept := store.rows;
    for k := 0 to |edits|
      invariant store.Valid() && Agrees(store.rows, end)
      invariant store.rows.Keys == kept.Keys + SetOf(ids[..k])
    {
      var e := edits[k];
      assert ids[..k + 1] == ids[..k] + [e.id];
      MergeFits(store.schema, e.before, e.values, emitted);
      ghost var before := store.rows;
      failed := store.InsertAt(e.id, Merged(e, emitted));
      assert e.id !in before by {
        assert e.id == ids[k] && e.id in SetOf(ids);
        forall j | 0 <= j < k ensures ids[..k][j] != e.id {
          EditsOfOne(edits, j, k);
        }
      }
      if failed.Some? {
        if Distinct(store.schema, end) {
          NeverBlocked(store.schema, before, end, e.id);
        }
        return;
      }
    }
    assert ids[..|edits|] == ids;
    assert forall k | 0 <= k < |edits| :: ids[k] in old(store.rows);
    failed := None;
  }

  /** A row of a clash-free end state cannot be refused by a part of it. */
  lemma {:induction false} NeverBlocked(s: Schema, t: Rows, end: Rows, id: nat)
    requires ValidRows(s, t) && ValidRows(s, end) && Agrees(t, end) && id in end
    ensures Violation(s.groups, t, id, end[id]) == None
  {
    forall g, r | g in s.groups && r in t && r != id ensures !Clash(g, end[id], t[r]) {
      assert Differ(s, end, g, id, r);
    }
  }

  // ----------------------------------------------------------- the whole run

  /** The rowids of the stored rows no wanted row claims. */
  function RemovedIds(p: Plan): (ids: seq<nat>)
    ensures |ids| == |p.RemovedUpTo(|p.stored|)|
  {
    var removed := p.RemovedUpTo(|p.stored|);
    seq(|removed|, k requires 0 <= k < |removed| => p.stored[removed[k]].id)
  }

  /** What the deletes leave: the rows not read, and the claimed ones. */
  lemma {:induction false} RemovedIsUnclaimed(p: Plan, id: nat)
    requires p.Valid() && id in RemovedIds(p)
    ensures id in IdsOf(p.stored) && id !in p.Claimed()
  {
    var removed := p.RemovedUpTo(|p.stored|);
    var k :| 0 <= k < |removed| && RemovedIds(p)[k] == id;
    assert removed[k] in removed && p.stored[removed[k]] in p.stored;
    if id in p.Claimed() {
      var at: nat :| at < |p.stored| && Some(at) in p.claims && p.stored[at].id == id;
      SameHeld(p.stored, p.start, at, removed[k]);
    }
  }

  lemma {:induction false} UnclaimedIsRemoved(p: Plan, id: nat)
    requires p.Valid() && id in IdsOf(p.stored) && id !in p.Claimed()
    ensures id in RemovedIds(p)
  {
    var removed := p.RemovedUpTo(|p.stored|);
    var at :| 0 <= at < |p.stored| && p.stored[at].id == id;
    assert Some(at) !in p.claims;
    var k :| 0 <= k < |removed| && removed[k] == at;
    assert RemovedIds(p)[k] == id;
  }

  lemma {:induction false} RemovedIdsLeave(p: Plan)
    requires p.Valid()
    ensures p.start.Keys - SetOf(RemovedIds(p)) == (p.start.Keys - IdsOf(p.stored)) + p.Claimed()
    ensures forall i | 0 <= i < |p.claims| && p.claims[i].Some? :: p.Placed(i) in p.start.Keys - SetOf(RemovedIds(p))
  {
    forall id ensures id in RemovedIds(p) <==> id in IdsOf(p.stored) && id !in p.Claimed() {
      if id in RemovedIds(p) {
        RemovedIsUnclaimed(p, id);
      } else if id in IdsOf(p.stored) && id !in p.Claimed() {
        UnclaimedIsRemoved(p, id);
      }
    }
    forall i | 0 <= i < |p.claims| && p.claims[i].Some? ensures p.Placed(i) in p.start.Keys - SetOf(RemovedIds(p)) {
      PlacedIsInjective(p, i, i);
    }
  }

  /** A matched row that compares equal already is as wanted. */
  lemma {:induction false} UnchangedIsFinal(p: Plan, i: nat)
    requires p.Valid() && i < |p.claims| && p.claims[i].Some? && !p.Changes(i)
    ensures p.Final(i) == p.stored[p.claims[i].value].cells
  {
    var before, wanted, compared := p.stored[p.claims[i].value].cells, p.wanted.cells[i], Compared(p.wanted.emitted);
    forall c | 0 <= c < |before| && p.wanted.emitted[c] ensures before[c] == wanted[c] {
      var k :| 0 <= k < |compared| && compared[k] == c;
      assert KeyOf(before, compared)[k] == KeyOf(wanted, compared)[k];
    }
  }

  /** The table as the updates find it. */
  function AfterDeletes(p: Plan): Rows { p.start - SetOf(RemovedIds(p)) }

  lemma {:induction false} EditsAreValid(p: Plan)
    requires p.Valid()
    ensures ValidEdits(p.schema, AfterDeletes(p), p.Edits(), 0, p.wanted.emitted)
    ensures forall k | 0 <= k < |p.Edits()| ::
      p.Edits()[k].id in p.End() && p.End()[p.Edits()[k].id] == Merged(p.Edits()[k], p.wanted.emitted)
  {
    RemovedIdsLeave(p);
    EndIsWanted(p);
    FewerDiffer(p.schema, AfterDeletes(p), p.start);
    var edits, changed := p.Edits(), p.ChangedUpTo(|p.claims|);
    forall k | 0 <= k < |edits|
      ensures edits[k].id in AfterDeletes(p) && AfterDeletes(p)[edits[k].id] == edits[k].before
      ensures Fits(p.schema, edits[k].before) && Fits(p.schema, edits[k].values)
      ensures edits[k].id in p.End() && p.End()[edits[k].id] == Merged(edits[k], p.wanted.emitted)
    {
      assert p.Placed(changed[k]) == edits[k].id;
    }
    EditsDiffer(p);
  }

  lemma {:induction false} EditsDiffer(p: Plan)
    requires p.Valid()
    ensures forall j, k :: OtherEdit(p.Edits(), j, k)
  {
    var edits, changed := p.Edits(), p.ChangedUpTo(|p.claims|);
    ChangedRises(p, |p.claims|);
    forall j, k ensures OtherEdit(edits, j, k) {
      if 0 <= j < k < |edits| {
        assert ListedBefore(changed, j, k) && p.Placed(changed[j]) == edits[j].id &&
          p.Placed(changed[k]) == edits[k].id;
        PlacedIsInjective(p, changed[j], changed[k]);
      }
    }
  }

  /** A row no edit names is already as the end state wants it. */
  lemma {:induction false} UneditedIsFinal(p: Plan, id: nat)
    requires p.Valid() && id in AfterDeletes(p)
    requires id !in EditIds(p.Edits())
    ensures id in p.End() && p.End()[id] == p.start[id]
  {
    EndIsWanted(p);
    RemovedIdsLeave(p);
    if id in p.Claimed() {
      var c :| c in p.claims && c.Some? && c.value < |p.stored| && p.stored[c.value].id == id;
      var i :| 0 <= i < |p.claims| && p.claims[i] == c;
      var changed := p.ChangedUpTo(|p.claims|);
      forall k | 0 <= k < |changed| ensures changed[k] != i {
        assert p.Edits()[k].id == EditIds(p.Edits())[k];
      }
      assert i !in changed;
      UnchangedIsFinal(p, i);
      assert p.Placed(i) == id;
    }
  }

  lemma {:induction false} MaxIdIs(ids: set<nat>, m: nat)
    requires m in ids || (ids == {} && m == 0)
    requires forall id | id in ids :: id <= m
    ensures MaxId(ids) == m
  {
  }

  lemma {:induction false} AddedAt(p: Plan, n: nat, a: nat)
    requires n <= |p.claims| && a < |p.AddedUpTo(n)|
    ensures var i := p.AddedUpTo(n)[a]; i < n && p.claims[i].None? && p.News(i) == a
  {
    if a < |p.AddedUpTo(n - 1)| {
      AddedAt(p, n - 1, a);
    }
  }

  method InsertOne(store: TableStore, p: Plan, i: nat) returns (failed: Option<Constraint>, id: nat)
    requires p.Valid() && store.Valid() && store.schema == p.schema && AllFit(p.schema, p.End())
    requires Agrees(store.rows, p.End())
    requires i < |p.claims| && p.claims[i].None? && MaxId(store.rows.Keys) == p.Base() + p.News(i)
    modifies store
    ensures store.Valid() && Agrees(store.rows, p.End())
    ensures id == p.Placed(i)
    ensures failed.None? ==> store.rows.Keys == old(store.rows).Keys + {id}
    ensures failed.Some? ==> store.rows == old(store.rows)
    ensures failed.None? ==> MaxId(store.rows.Keys) == p.Base() + p.News(i) + 1
    ensures Distinct(p.schema, p.End()) ==> failed.None?
  {
    LayAt(p, |p.claims|, i);
    assert Stored(p.schema, p.wanted.cells[i]) == p.Final(i);
    failed, id := store.Insert(p.wanted.cells[i]);
    assert id == p.Placed(i);
    if failed.None? {
      MaxIdIs(store.rows.Keys, id);
    } else if Distinct(p.schema, p.End()) {
      NeverBlocked(p.schema, old(store.rows), p.End(), id);
    }
  }

  /** The matched rows and the first `a` new ones are placed and stored. */
  ghost predicate PlacedSoFar(p: Plan, a: nat, t: Rows, placed: seq<nat>)
    requires p.Shaped() && a <= |p.AddedUpTo(|p.claims|)|
  {
    var added := p.AddedUpTo(|p.claims|);
    && |placed| == |p.claims|
    && (forall i | 0 <= i < |placed| && p.claims[i].Some? :: placed[i] == p.Placed(i))
    && (forall b | 0 <= b < a :: placed[added[b]] == p.Placed(added[b]) && placed[added[b]] in t)
  }

  lemma {:induction false} PlacedStep(p: Plan, a: nat, t: Rows, t': Rows, placed: seq<nat>)
    requires p.Shaped() && a < |p.AddedUpTo(|p.claims|)| && PlacedSoFar(p, a, t, placed)
    requires t'.Keys == t.Keys + {p.Placed(p.AddedUpTo(|p.claims|)[a])}
    ensures var i := p.AddedUpTo(|p.claims|)[a]; PlacedSoFar(p, a + 1, t', placed[i := p.Placed(i)])
  {
  }

  /** Where every wanted row ends up. */
  function PlacedAll(p: Plan): (placed: seq<nat>)
    requires p.Shaped()
    ensures |placed| == |p.claims|
  {
    seq(|p.claims|, i requires 0 <= i < |p.claims| => p.Placed(i))
  }

  lemma {:induction false} AllPlaced(p: Plan, t: Rows, placed: seq<nat>)
    requires p.Shaped() && PlacedSoFar(p, |p.AddedUpTo(|p.claims|)|, t, placed)
    ensures placed == PlacedAll(p)
    ensures forall i | 0 <= i < |p.claims| && p.claims[i].None? :: p.Placed(i) in t
  {
    forall i | 0 <= i < |p.claims| && p.claims[i].None? ensures placed[i] == p.Placed(i) && p.Placed(i) in t {
      var b :| 0 <= b < |p.AddedUpTo(|p.claims|)| && p.AddedUpTo(|p.claims|)[b] == i;
    }
  }

  /** Insert the new rows in order, noting the rowid each receives. */
  method InsertEach(store: TableStore, p: Plan, added: seq<nat>, matched: seq<nat>)
    returns (failed: Option<Constraint>, placed: seq<nat>)
    requires p.Valid() && store.Valid() && store.schema == p.schema && AllFit(p.schema, p.End())
    requires added == p.AddedUpTo(|p.claims|) && PlacedSoFar(p, 0, store.rows, matched)
    requires Agrees(store.rows, p.End()) && MaxId(store.rows.Keys) == p.Base()
    modifies store
    ensures store.Valid() && Agrees(store.rows, p.End())
    ensures old(store.rows).Keys <= store.rows.Keys
    ensures failed.None? ==> PlacedSoFar(p, |added|, store.rows, placed)
    ensures Distinct(p.schema, p.End()) ==> failed.None?
  {
    failed, placed := None, matched;
    var a := 0;
    while a < |added|
      invariant a <= |added| && failed.None?
      invariant store.Valid() && Agrees(store.rows, p.End())
      invariant old(store.rows).Keys <= store.rows.Keys
      invariant MaxId(store.rows.Keys) == p.Base() + a
      invariant PlacedSoFar(p, a, store.rows, placed)
    {
      AddedAt(p, |p.claims|, a);
      ghost var before := store.rows;
      var id: nat;
      failed, id := InsertOne(store, p, added[a]);
      if failed.Some? {
        return;
      }
      PlacedStep(p, a, before, store.rows, placed);
      placed := placed[added[a] := id];
      a := a + 1;
    }
  }

  // ----------------------------------------------------------------- the whole

  function ToMap(columns: seq<string>, cells: Cells): Row
    requires |columns| == |cells|
  {
    if columns == [] then map[]
    else ToMap(columns[..|columns| - 1], cells[..|cells| - 1])[columns[|columns| - 1] := cells[|cells| - 1]]
  }

  /** `row` has the columns and no others, each with the cell at its place. */
  ghost predicate Reads(columns: seq<string>, cells: Cells, row: Row) {
    && |columns| == |cells| && (forall name :: name in row <==> name in columns)
    && (forall c | 0 <= c < |columns| :: columns[c] in row && row[columns[c]] == cells[c])
  }

  lemma {:induction false} ToMapReads(columns: seq<string>, cells: Cells)
    requires |columns| == |cells| && forall i, j | 0 <= i < j < |columns| :: columns[i] != columns[j]
    ensures Reads(columns, cells, ToMap(columns, cells))
  {
    if columns != [] {
      var n := |columns| - 1;
      ToMapReads(columns[..n], cells[..n]);
      OneMoreReads(columns, cells, n, ToMap(columns[..n], cells[..n]));
    }
  }

  lemma {:induction false} OneMoreReads(columns: seq<string>, cells: Cells, n: nat, row: Row)
    requires |columns| == |cells| == n + 1 && Reads(columns[..n], cells[..n], row)
    requires forall i, j | 0 <= i < j < |columns| :: columns[i] != columns[j]
    ensures Reads(columns, cells, row[columns[n] := cells[n]])
  {
    assert columns == columns[..n] + [columns[n]];
    forall c | 0 <= c < n ensures columns[c] in row && row[columns[c]] == cells[c] && columns[c] != columns[n] {
      assert columns[..n][c] == columns[c] && cells[..n][c] == cells[c];
    }
  }

  function ToMaps(columns: seq<string>, rows: seq<Cells>): (r: seq<Row>)
    requires forall i | 0 <= i < |rows| :: |columns| == |rows[i]|
    ensures |r| == |rows|
  {
    seq(|rows|, i requires 0 <= i < |rows| => ToMap(columns, rows[i]))
  }

  /** The rows a reconcile did not carry over. */
  datatype RowChanges = RowChanges(removed: seq<Row>, added: seq<Row>, updated: seq<(Row, Row)>, keyed: bool)
  {
    predicate IsEmpty() { removed == [] && added == [] && updated == [] }
  }

  function ChangesOf(p: Plan, keyed: bool): RowChanges
    requires p.Shaped() && |p.schema.columns| == |p.wanted.emitted|
  {
    var removed, added, edits := p.RemovedUpTo(|p.stored|), p.AddedUpTo(|p.claims|), p.Edits();
    RowChanges(
      seq(|removed|, k requires 0 <= k < |removed| => ToMap(p.schema.columns, p.stored[removed[k]].cells)),
      seq(|added|, k requires 0 <= k < |added| => ToMap(p.schema.columns, p.wanted.cells[added[k]])),
      seq(|edits|, k requires 0 <= k < |edits| =>
        (ToMap(p.schema.columns, edits[k].before), ToMap(p.schema.columns, Merged(edits[k], p.wanted.emitted)))),
      keyed)
  }

  /** The plan a reconcile follows. */
  function PlanOf(s: Schema, t: Rows, stored: seq<Held>, rows: Shaped, key: Option<seq<nat>>): Plan
    requires |rows.emitted| == |s.columns|
    requires forall i | 0 <= i < |rows.cells| :: |rows.cells[i]| == |s.columns|
    requires forall i | 0 <= i < |stored| :: |stored[i].cells| == |s.columns|
    requires forall c | c in MatchOn(key, rows.emitted) :: c < |s.columns|
  {
    var wanted, on := AsStored(s, rows), MatchOn(key, rows.emitted);
    Plan(s, t, stored, wanted, Claims.ClaimsOf(Keys(CellsOf(stored), on), Keys(wanted.cells, on)))
  }

  lemma {:induction false} PlanIsValid(s: Schema, t: Rows, stored: seq<Held>, rows: Shaped, key: Option<seq<nat>>)
    requires ValidRows(s, t) && ReadFrom(stored, t) && ValidShape(s, rows) && ValidKey(s, key)
    ensures PlanOf(s, t, stored, rows, key).Valid()
  {
    AsStoredFits(s, rows);
    var on := MatchOn(key, rows.emitted);
    var held, wanted := Keys(CellsOf(stored), on), Keys(AsStored(s, rows).cells, on);
    var claims := Claims.ClaimsOf(held, wanted);
    forall i, j ensures ClaimOnce(claims, i, j) {
      if 0 <= i < j < |wanted| && claims[i].Some? && claims[i] == claims[j] {
        Claims.ClaimsAreInjective(held, wanted, i, j);
      }
    }
  }

  ghost predicate OthersKept(p: Plan, t: Rows) {
    forall id | id in p.start.Keys - IdsOf(p.stored) :: id in t && t[id] == p.start[id]
  }

  lemma {:induction false} AgreeingKeepsOthers(p: Plan, t: Rows)
    requires p.Valid() && Agrees(t, p.End()) && p.start.Keys - IdsOf(p.stored) <= t.Keys
    ensures OthersKept(p, t)
  {
    EndIsWanted(p);
  }

  lemma {:induction false} AfterDeletesKeepsOthers(p: Plan, t: Rows)
    requires p.Valid() && t.Keys == AfterDeletes(p).Keys
    requires forall id | id in t && id !in EditIds(p.Edits()) :: t[id] == AfterDeletes(p)[id]
    ensures OthersKept(p, t)
  {
    RemovedIdsLeave(p);
    forall id | id in p.start.Keys - IdsOf(p.stored) ensures id !in EditIds(p.Edits()) {
      var changed := p.ChangedUpTo(|p.claims|);
      forall k | 0 <= k < |changed| ensures p.Edits()[k].id != id {
        assert p.stored[p.claims[changed[k]].value] in p.stored;
      }
    }
  }

  /** The rows at the given positions. */
  function Picked<T>(rows: seq<T>, at: seq<nat>): (r: seq<T>)
    requires forall k | 0 <= k < |at| :: at[k] < |rows|
    ensures |r| == |at|
  {
    seq(|at|, k requires 0 <= k < |at| => rows[at[k]])
  }

  lemma {:induction false} UpdatedAgrees(p: Plan, t: Rows, blocked: seq<nat>)
    requires p.Valid() && Aligned(p.Edits(), p.wanted.emitted)
    requires Updated(AfterDeletes(p), t, p.Edits(), |p.Edits()|, blocked, p.wanted.emitted)
    ensures Agrees(t - SetOf(EditIds(Picked(p.Edits(), blocked))), p.End())
  {
    EditsAreValid(p);
    var edits, ids := p.Edits(), EditIds(Picked(p.Edits(), blocked));
    forall id | id in t && id !in SetOf(ids) ensures id in p.End() && t[id] == p.End()[id] {
      if id in EditIds(edits) {
        var k :| 0 <= k < |edits| && EditIds(edits)[k] == id;
        forall i | 0 <= i < |blocked| ensures blocked[i] != k {
          assert ids[i] == edits[blocked[i]].id;
        }
        assert k !in blocked;
      } else {
        Untouched(AfterDeletes(p), t, edits, |edits|, blocked, p.wanted.emitted);
        UneditedIsFinal(p, id);
      }
    }
  }

  lemma {:induction false} PickedAreFit(s: Schema, edits: seq<Edit>, at: seq<nat>, emitted: seq<bool>)
    requires FitEdits(s, edits, emitted)
    requires forall k | 0 <= k < |at| :: at[k] < |edits|
    requires forall i, j | 0 <= i < j < |at| :: at[i] < at[j]
    ensures FitEdits(s, Picked(edits, at), emitted)
  {
    forall j, k ensures OtherEdit(Picked(edits, at), j, k) {
      if 0 <= j < k < |at| {
        EditsOfOne(edits, at[j], at[k]);
      }
    }
  }

  /** Rows that agree with the end state and are all there are it. */
  lemma {:induction false} ReachesEnd(p: Plan, t: Rows)
    requires p.Valid() && Agrees(t, p.End())
    requires AfterDeletes(p).Keys <= t.Keys
    requires forall i | 0 <= i < |p.claims| && p.claims[i].None? :: p.Placed(i) in t
    ensures t == p.End()
  {
    RemovedIdsLeave(p);
    EndIsWanted(p);
    forall id | id in p.End() ensures id in t {
      if id !in p.start.Keys - IdsOf(p.stored) {
        var i :| 0 <= i < |p.claims| && p.Placed(i) == id;
      }
    }
  }

  /** The rowids of the matched rows, zero where a row is new. */
  function Matched(p: Plan): (r: seq<nat>)
    requires p.Shaped()
    ensures |r| == |p.claims|
  {
    seq(|p.claims|, i requires 0 <= i < |p.claims| => if p.claims[i].Some? then p.Placed(i) else 0)
  }

  /** The end state can be reached: it clashes nowhere, and no update on the
      way asks for a PRIMARY KEY still taken. */
  ghost predicate Reachable(p: Plan)
    requires p.Valid()
  {
    EndFits(p);
    EditsAreValid(p);
    Distinct(p.schema, p.End()) && !HitsPrimary(p.schema, AfterDeletes(p), p.Edits(), 0, p.wanted.emitted)
  }

  /** Delete, update, re-place and insert. */
  method EditTable(store: TableStore, p: Plan) returns (failed: Option<Constraint>, placed: seq<nat>)
    requires p.Valid() && store.schema == p.schema && store.rows == p.start
    modifies store
    ensures store.Valid() && OthersKept(p, store.rows)
    ensures failed.None? <==> Reachable(p)
    ensures failed.None? ==> store.rows == p.End() && placed == PlacedAll(p)
  {
    EndFits(p);
    EditsAreValid(p);
    RemovedIdsLeave(p);
    DeleteEach(store, RemovedIds(p));
    var edits, emitted := p.Edits(), p.wanted.emitted;
    var blocked, done;
    blocked, failed, done := UpdateEach(store, edits, emitted);
    Untouched(AfterDeletes(p), store.rows, edits, done, blocked, emitted);
    if failed.Some? {
      AfterDeletesKeepsOthers(p, store.rows);
      return failed, [];
    }
    failed, placed := SettleBlocked(store, p, blocked);
  }

  /** What is left after the updates: the blocked rows, then the new ones. */
  method SettleBlocked(store: TableStore, p: Plan, blocked: seq<nat>)
      returns (failed: Option<Constraint>, placed: seq<nat>)
    requires p.Valid() && store.Valid() && store.schema == p.schema && AllFit(p.schema, p.End())
    requires ValidEdits(p.schema, AfterDeletes(p), p.Edits(), 0, p.wanted.emitted)
    requires Updated(AfterDeletes(p), store.rows, p.Edits(), |p.Edits()|, blocked, p.wanted.emitted)
    requires store.rows.Keys == AfterDeletes(p).Keys
    modifies store
    ensures store.Valid() && OthersKept(p, store.rows)
    ensures failed.None? <==> Distinct(p.schema, p.End())
    ensures failed.None? ==> store.rows == p.End() && placed == PlacedAll(p)
  {
    var edits, emitted := p.Edits(), p.wanted.emitted;
    EditsAreValid(p);
    RemovedIdsLeave(p);
    UpdatedAgrees(p, store.rows, blocked);
    PickedAreFit(p.schema, edits, blocked, emitted);
    failed := ReplaceEach(store, Picked(edits, blocked), emitted, p.End());
    if failed.Some? {
      OthersSurvive(p, store.rows, Picked(edits, blocked));
      AgreeingKeepsOthers(p, store.rows);
      return failed, [];
    }
    failed, placed := InsertEach(store, p, p.AddedUpTo(|p.claims|), Matched(p));
    AgreeingKeepsOthers(p, store.rows);
    if failed.None? {
      AllPlaced(p, store.rows, placed);
      ReachesEnd(p, store.rows);
    }
  }

  lemma {:induction false} OthersSurvive(p: Plan, t: Rows, edits: seq<Edit>)
    requires p.Valid() && AfterDeletes(p).Keys - SetOf(EditIds(edits)) <= t.Keys
    requires forall k | 0 <= k < |edits| :: edits[k] in p.Edits()
    ensures p.start.Keys - IdsOf(p.stored) <= t.Keys
  {
    RemovedIdsLeave(p);
    forall id | id in p.start.Keys - IdsOf(p.stored) ensures id !in EditIds(edits) {
      forall k | 0 <= k < |edits| ensures edits[k].id != id {
        assert edits[k] in p.Edits();
        var j :| 0 <= j < |p.Edits()| && p.Edits()[j] == edits[k];
        assert p.stored[p.claims[p.ChangedUpTo(|p.claims|)[j]].value] in p.stored;
      }
    }
  }

  /** With nothing to write the table already is the end state. */
  lemma {:induction false} NothingToDo(p: Plan)
    requires p.Valid() && p.RemovedUpTo(|p.stored|) == [] && p.AddedUpTo(|p.claims|) == [] && p.Edits() == []
    ensures p.start == p.End() && Reachable(p) && Matched(p) == PlacedAll(p)
  {
    assert RemovedIds(p) == [];
    EndFits(p);
    EditsAreValid(p);
    forall id | id in p.start ensures id in p.End() && p.End()[id] == p.start[id] {
      UneditedIsFinal(p, id);
    }
    forall i | 0 <= i < |p.claims| ensures p.claims[i].Some? {
      assert i !in p.AddedUpTo(|p.claims|);
    }
    ReachesEnd(p, p.start);
  }

  /**
   Make the stored rows equal the wanted ones, writing only the difference. It
   succeeds exactly when the end state is reachable, ends in precisely that
   state, and never touches a row it was not handed.
   */
  method ReconcileRows(store: TableStore, stored: seq<Held>, rows: Shaped, key: Option<seq<nat>>)
    returns (r: Result<(RowChanges, seq<nat>), Constraint>)
    requires store.Valid() && ReadFrom(stored, store.rows)
    requires ValidShape(store.schema, rows) && ValidKey(store.schema, key)
    modifies store
    ensures store.Valid()
    ensures var p := PlanOf(store.schema, old(store.rows), stored, rows, key);
      && p.Valid()
      && OthersKept(p, store.rows)
      && (r.Success? <==> Reachable(p))
      && (r.Success? ==> store.rows == p.End() && r.value == (ChangesOf(p, key.Some?), PlacedAll(p)))
  {
    PlanIsValid(store.schema, store.rows, stored, rows, key);
    var wanted, on := AsStored(store.schema, rows), MatchOn(key, rows.emitted);
    var claims := Claims.Claim(Keys(CellsOf(stored), on), Keys(wanted.cells, on));
    var p := Plan(store.schema, store.rows, stored, wanted, claims);
    var changes := ChangesOf(p, key.Some?);
    if changes.IsEmpty() {
      NothingToDo(p);
      return Success((changes, Matched(p)));
    }
    var failed, placed := EditTable(store, p);
    r := if failed.Some? then Failure(failed.value) else Success((changes, placed));
  }
}
