/**
 When `reconcile_rows` reaches its end state. It does whenever no update moves a
 PRIMARY KEY value; a moved one can be refused with a code the source does not
 defer, though the end state it heads for is sound. Which ones are is read off
 the updates alone.
 */
module PrimaryKeys {
  import opened Wrappers
  import opened Values
  import opened UserTable
  import opened Reconcile
  import Claims

  /** No edit changes the cells of a group. */
  predicate Holds(g: Group, edits: seq<Edit>, emitted: seq<bool>)
    requires Aligned(edits, emitted) && forall c | c in g.columns :: c < |emitted|
  {
    forall k | 0 <= k < |edits| :: KeyOf(edits[k].before, g.columns) == KeyOf(Merged(edits[k], emitted), g.columns)
  }

  /** An update that keeps a group's cells cannot break that group. */
  lemma {:induction false} HeldGroupNeverBreaks(s: Schema, t: Rows, edits: seq<Edit>, u: nat, emitted: seq<bool>,
      g: Group)
    requires ValidEdits(s, t, edits, u, emitted) && u < |edits| && g in s.groups && Holds(g, edits, emitted)
    ensures !Breaks(g, t, edits[u].id, Merged(edits[u], emitted))
  {
    MergeFits(s, edits[u].before, edits[u].values, emitted);
    forall r | r in t && r != edits[u].id ensures !Clash(g, Merged(edits[u], emitted), t[r]) {
      assert Differ(s, t, g, edits[u].id, r);
      assert !Clash(g, t[edits[u].id], t[r]);
    }
  }

  lemma {:induction false} HeldPrimaryNeverHit(s: Schema, t: Rows, edits: seq<Edit>, u: nat, emitted: seq<bool>)
    requires ValidEdits(s, t, edits, u, emitted)
    requires forall g | g in s.groups && g.primary :: Holds(g, edits, emitted)
    ensures !HitsPrimary(s, t, edits, u, emitted)
    decreases |edits| - u
  {
    if u < |edits| {
      HitsPrimaryStep(s, t, edits, u, emitted);
      var cells := Merged(edits[u], emitted);
      forall g | g in s.groups && g.primary ensures !Breaks(g, t, edits[u].id, cells) {
        HeldGroupNeverBreaks(s, t, edits, u, emitted, g);
      }
      var v := Violation(s.groups, t, edits[u].id, cells);
      HeldPrimaryNeverHit(s, if v.None? then t[edits[u].id := cells] else t, edits, u + 1, emitted);
    }
  }

  /** The columns of a group: the key rows were matched by, or none a row emits. */
  predicate Settled(g: Group, key: Option<seq<nat>>, emitted: seq<bool>)
    requires forall c | c in g.columns :: c < |emitted|
  {
    (key.Some? && forall c | c in g.columns :: c in key.value) || forall c | c in g.columns :: !emitted[c]
  }

  lemma {:induction false} MatchedRowsShareKey(s: Schema, t: Rows, stored: seq<Held>, rows: Shaped,
      key: Option<seq<nat>>, i: nat, c: nat)
    requires ValidRows(s, t) && ReadFrom(stored, t) && ValidShape(s, rows) && ValidKey(s, key)
    requires PlanOf(s, t, stored, rows, key).Valid()
    requires i < |rows.cells| && key.Some? && c in key.value
    requires PlanOf(s, t, stored, rows, key).claims[i].Some?
    ensures var p := PlanOf(s, t, stored, rows, key);
      p.stored[p.claims[i].value].cells[c] == p.wanted.cells[i][c]
  {
    var p := PlanOf(s, t, stored, rows, key);
    var at := p.claims[i].value;
    var held, wanted := Keys(CellsOf(stored), key.value), Keys(p.wanted.cells, key.value);
    assert p.claims[i] == Claims.ClaimOf(held, wanted, i);
    assert held[at] == wanted[i];
    var k :| 0 <= k < |key.value| && key.value[k] == c;
    assert KeyOf(stored[at].cells, key.value)[k] == KeyOf(p.wanted.cells[i], key.value)[k];
  }

  /**
   Sound and complete: when rows are matched by the PRIMARY KEY, or the wanted
   rows leave it out, or the table has none, reconciling succeeds exactly when
   the wanted end state repeats no UNIQUE value.
   */
  lemma {:induction false} ReachableUnlessEndClashes(s: Schema, t: Rows, stored: seq<Held>, rows: Shaped,
      key: Option<seq<nat>>)
    requires ValidRows(s, t) && ReadFrom(stored, t) && ValidShape(s, rows) && ValidKey(s, key)
    requires forall g | g in s.groups && g.primary :: Settled(g, key, rows.emitted)
    ensures var p := PlanOf(s, t, stored, rows, key);
      p.Valid() && AllFit(s, p.End()) && (Reachable(p) <==> Distinct(s, p.End()))
  {
    PlanIsValid(s, t, stored, rows, key);
    var p := PlanOf(s, t, stored, rows, key);
    EndFits(p);
    EditsAreValid(p);
    forall g | g in s.groups && g.primary ensures Holds(g, p.Edits(), rows.emitted) {
      SettledHolds(s, t, stored, rows, key, g);
    }
    HeldPrimaryNeverHit(s, AfterDeletes(p), p.Edits(), 0, rows.emitted);
  }

  lemma {:induction false} SettledHolds(s: Schema, t: Rows, stored: seq<Held>, rows: Shaped, key: Option<seq<nat>>,
      g: Group)
    requires ValidRows(s, t) && ReadFrom(stored, t) && ValidShape(s, rows) && ValidKey(s, key)
    requires PlanOf(s, t, stored, rows, key).Valid()
    requires g in s.groups && Settled(g, key, rows.emitted)
    ensures var p := PlanOf(s, t, stored, rows, key);
      Aligned(p.Edits(), rows.emitted) && Holds(g, p.Edits(), rows.emitted)
  {
    var p := PlanOf(s, t, stored, rows, key);
    var edits, changed := p.Edits(), p.ChangedUpTo(|p.claims|);
    forall k | 0 <= k < |edits|
      ensures KeyOf(edits[k].before, g.columns) == KeyOf(Merged(edits[k], rows.emitted), g.columns)
    {
      forall c | c in g.columns ensures edits[k].before[c] == Merged(edits[k], rows.emitted)[c] {
        if rows.emitted[c] {
          MatchedRowsShareKey(s, t, stored, rows, key, changed[k], c);
        }
      }
    }
  }

  // --------------------------------------------------- read off the edits alone

  predicate InColumns(groups: seq<Group>, emitted: seq<bool>) {
    forall g | g in groups :: forall c | c in g.columns :: c < |emitted|
  }

  /** The row of update `k` starts with the value of `g` update `j` asks for. */
  predicate HasWanted(edits: seq<Edit>, emitted: seq<bool>, g: Group, j: nat, k: nat)
    requires Aligned(edits, emitted) && j < |edits| && forall c | c in g.columns :: c < |emitted|
  {
    k < |edits| && k != j && Clash(g, Merged(edits[j], emitted), edits[k].before)
  }

  /**
   When update `j` is made another row has the value of `g` it asks for: one
   whose own update comes later, or was held up before.
   */
  ghost predicate WaitsOn(groups: seq<Group>, edits: seq<Edit>, emitted: seq<bool>, g: Group, j: nat)
    requires InColumns(groups, emitted) && Aligned(edits, emitted) && g in groups && j < |edits|
    decreases j, 0
  {
    exists k: nat :: HasWanted(edits, emitted, g, j, k) && (k > j || HeldUp(groups, edits, emitted, k))
  }

  ghost predicate HeldUp(groups: seq<Group>, edits: seq<Edit>, emitted: seq<bool>, j: nat)
    requires InColumns(groups, emitted) && Aligned(edits, emitted) && j < |edits|
    decreases j, 1
  {
    exists g | g in groups :: WaitsOn(groups, edits, emitted, g, j)
  }

  /** Group `i` is the first update `j` waits on. */
  ghost predicate FirstWaits(groups: seq<Group>, edits: seq<Edit>, emitted: seq<bool>, j: nat, i: nat)
    requires InColumns(groups, emitted) && Aligned(edits, emitted) && j < |edits|
  {
    && i < |groups| && WaitsOn(groups, edits, emitted, groups[i], j)
    && forall h | 0 <= h < i :: !WaitsOn(groups, edits, emitted, groups[h], j)
  }

  /** What holds update `j` up is, first of all, the PRIMARY KEY. */
  ghost predicate RefusedAt(groups: seq<Group>, edits: seq<Edit>, emitted: seq<bool>, j: nat)
    requires InColumns(groups, emitted) && Aligned(edits, emitted) && j < |edits|
  {
    exists i: nat :: FirstWaits(groups, edits, emitted, j, i) && groups[i].primary
  }

  ghost predicate NoneRefused(groups: seq<Group>, edits: seq<Edit>, emitted: seq<bool>)
    requires InColumns(groups, emitted) && Aligned(edits, emitted)
  {
    forall j | 0 <= j < |edits| :: !RefusedAt(groups, edits, emitted, j)
  }

  /** The table once the updates before `u` were made, on the way to `end`: a
      row held up is as it was, and what no update names is as it ends. */
  ghost predicate Midway(s: Schema, t: Rows, edits: seq<Edit>, u: nat, emitted: seq<bool>, end: Rows) {
    && ValidEdits(s, t, edits, u, emitted) && ValidRows(s, end)
    && (forall k: nat :: Stands(s, t, edits, u, emitted, end, k))
    && (forall id: nat :: Stays(t, edits, end, id))
  }

  ghost predicate Stands(s: Schema, t: Rows, edits: seq<Edit>, u: nat, emitted: seq<bool>, end: Rows, k: nat)
    requires InColumns(s.groups, emitted) && Aligned(edits, emitted)
  {
    k < |edits| ==>
      && edits[k].id in t && edits[k].id in end && end[edits[k].id] == Merged(edits[k], emitted)
      && t[edits[k].id] ==
        if k < u && !HeldUp(s.groups, edits, emitted, k) then Merged(edits[k], emitted) else edits[k].before
  }

  predicate Stays(t: Rows, edits: seq<Edit>, end: Rows, id: nat) {
    id in t && id !in EditIds(edits) ==> id in end && end[id] == t[id]
  }

  /** Whatever stands in an update's way is a row that update waits on. */
  lemma {:induction false} BreaksIffWaits(s: Schema, t: Rows, edits: seq<Edit>, u: nat, emitted: seq<bool>, end: Rows,
      g: Group)
    requires Midway(s, t, edits, u, emitted, end) && u < |edits| && g in s.groups
    ensures Breaks(g, t, edits[u].id, Merged(edits[u], emitted)) <==> WaitsOn(s.groups, edits, emitted, g, u)
  {
    var id, cells := edits[u].id, Merged(edits[u], emitted);
    if Breaks(g, t, id, cells) {
      var r :| r in t && r != id && Clash(g, cells, t[r]);
      BlockerHasNotMoved(s, t, edits, u, emitted, end, g, r);
    }
    if WaitsOn(s.groups, edits, emitted, g, u) {
      var k: nat :| HasWanted(edits, emitted, g, u, k) && (k > u || HeldUp(s.groups, edits, emitted, k));
      EditsOfOne(edits, k, u);
      assert Stands(s, t, edits, u, emitted, end, k) && Stands(s, t, edits, u, emitted, end, u);
    }
  }

  /** In a sound end state, a row in the way is one an update has yet to move. */
  lemma {:induction false} BlockerHasNotMoved(s: Schema, t: Rows, edits: seq<Edit>, u: nat, emitted: seq<bool>,
      end: Rows, g: Group, r: nat)
    requires Midway(s, t, edits, u, emitted, end) && u < |edits| && g in s.groups
    requires r in t && r != edits[u].id && Clash(g, Merged(edits[u], emitted), t[r])
    ensures WaitsOn(s.groups, edits, emitted, g, u)
  {
    assert Differ(s, end, g, edits[u].id, r);
    assert Stands(s, t, edits, u, emitted, end, u);
    assert r in EditIds(edits) by {
      assert Stays(t, edits, end, r);
    }
    var k :| 0 <= k < |edits| && EditIds(edits)[k] == r;
    assert edits[k].id == r && k != u && Stands(s, t, edits, u, emitted, end, k);
    assert HasWanted(edits, emitted, g, u, k);
  }

  /** Update `j` breaks `g` in `t` exactly when it waits on it. */
  ghost predicate Meets(groups: seq<Group>, t: Rows, edits: seq<Edit>, j: nat, emitted: seq<bool>, g: Group)
    requires InColumns(groups, emitted) && Aligned(edits, emitted) && j < |edits|
    requires forall r | r in t :: |t[r]| == |emitted|
  {
    g in groups ==> (Breaks(g, t, edits[j].id, Merged(edits[j], emitted)) <==> WaitsOn(groups, edits, emitted, g, j))
  }

  /** So the code it meets is that of the first group it waits on. */
  lemma {:induction false} MeetsFirst(groups: seq<Group>, t: Rows, edits: seq<Edit>, j: nat, emitted: seq<bool>)
    requires InColumns(groups, emitted) && Aligned(edits, emitted) && j < |edits|
    requires forall r | r in t :: |t[r]| == |emitted|
    requires forall g :: Meets(groups, t, edits, j, emitted, g)
    ensures var v := Violation(groups, t, edits[j].id, Merged(edits[j], emitted));
      && (v.None? <==> !HeldUp(groups, edits, emitted, j))
      && (v == Some(PrimaryKey) <==> RefusedAt(groups, edits, emitted, j))
  {
    var id, cells := edits[j].id, Merged(edits[j], emitted);
    forall g | g in groups ensures Breaks(g, t, id, cells) <==> WaitsOn(groups, edits, emitted, g, j) {
      assert Meets(groups, t, edits, j, emitted, g);
    }
    forall i: nat ensures FirstBroken(groups, t, id, cells, i) <==> FirstWaits(groups, edits, emitted, j, i) {
    }
    FirstBrokenTells(groups, t, id, cells);
  }

  /** What update `u` meets. */
  lemma {:induction false} MidwayMeets(s: Schema, t: Rows, edits: seq<Edit>, u: nat, emitted: seq<bool>, end: Rows)
    requires Midway(s, t, edits, u, emitted, end) && u < |edits|
    ensures var v := Violation(s.groups, t, edits[u].id, Merged(edits[u], emitted));
      && (v.None? <==> !HeldUp(s.groups, edits, emitted, u))
      && (v == Some(PrimaryKey) <==> RefusedAt(s.groups, edits, emitted, u))
  {
    forall g ensures Meets(s.groups, t, edits, u, emitted, g) {
      if g in s.groups {
        BreaksIffWaits(s, t, edits, u, emitted, end, g);
      }
    }
    MeetsFirst(s.groups, t, edits, u, emitted);
  }

  /** The rows update `u` leaves: as they were when it is held up. */
  ghost function Next(s: Schema, t: Rows, edits: seq<Edit>, u: nat, emitted: seq<bool>): Rows
    requires InColumns(s.groups, emitted) && Aligned(edits, emitted) && u < |edits|
  {
    if HeldUp(s.groups, edits, emitted, u) then t else t[edits[u].id := Merged(edits[u], emitted)]
  }

  /** The state update `u` leaves when it takes place, and when it is held up. */
  lemma {:induction false} MidwayMoves(s: Schema, t: Rows, edits: seq<Edit>, u: nat, emitted: seq<bool>, end: Rows,
      t': Rows)
    requires Midway(s, t, edits, u, emitted, end) && u < |edits|
    requires t' == Next(s, t, edits, u, emitted)
    requires ValidEdits(s, t', edits, u + 1, emitted)
    ensures Midway(s, t', edits, u + 1, emitted, end)
  {
    assert EditIds(edits)[u] == edits[u].id;
    var next := u + 1;
    forall k: nat ensures Stands(s, t', edits, next, emitted, end, k) {
      assert Stands(s, t, edits, u, emitted, end, k);
      if k < |edits| {
        EditsOfOne(edits, k, u);
      }
    }
    forall id: nat ensures Stays(t', edits, end, id) {
      assert Stays(t, edits, end, id);
    }
  }

  /** Update `u`, and what it leaves to the updates after it. */
  lemma {:induction false} HitsPrimaryOn(s: Schema, t: Rows, edits: seq<Edit>, u: nat, emitted: seq<bool>, end: Rows,
      t': Rows)
    requires Midway(s, t, edits, u, emitted, end) && u < |edits|
    requires t' == Next(s, t, edits, u, emitted)
    ensures Midway(s, t', edits, u + 1, emitted, end)
    ensures HitsPrimary(s, t, edits, u, emitted) <==>
      RefusedAt(s.groups, edits, emitted, u) || HitsPrimary(s, t', edits, u + 1, emitted)
  {
    MidwayMeets(s, t, edits, u, emitted, end);
    HitsPrimaryStep(s, t, edits, u, emitted);
    MidwayMoves(s, t, edits, u, emitted, end, t');
  }

  lemma {:induction false} MidwayNext(s: Schema, t: Rows, edits: seq<Edit>, u: nat, emitted: seq<bool>, end: Rows)
    requires Midway(s, t, edits, u, emitted, end) && u < |edits|
    ensures Midway(s, Next(s, t, edits, u, emitted), edits, u + 1, emitted, end)
  {
    HitsPrimaryOn(s, t, edits, u, emitted, end, Next(s, t, edits, u, emitted));
  }

  /** The rows the updates before `u` leave. */
  ghost function StateAt(s: Schema, t: Rows, edits: seq<Edit>, u: nat, emitted: seq<bool>): Rows
    requires InColumns(s.groups, emitted) && Aligned(edits, emitted) && u <= |edits|
  {
    if u == 0 then t else Next(s, StateAt(s, t, edits, u - 1, emitted), edits, u - 1, emitted)
  }

  lemma {:induction false} StatesAreMidway(s: Schema, t: Rows, edits: seq<Edit>, u: nat, emitted: seq<bool>, end: Rows)
    requires Midway(s, t, edits, 0, emitted, end) && u <= |edits|
    ensures Midway(s, StateAt(s, t, edits, u, emitted), edits, u, emitted, end)
  {
    if u > 0 {
      StatesAreMidway(s, t, edits, u - 1, emitted, end);
      MidwayNext(s, StateAt(s, t, edits, u - 1, emitted), edits, u - 1, emitted, end);
    }
  }

  ghost predicate HitsFrom(s: Schema, t: Rows, edits: seq<Edit>, u: nat, emitted: seq<bool>, end: Rows)
    requires Midway(s, t, edits, 0, emitted, end) && u <= |edits|
  {
    StatesAreMidway(s, t, edits, u, emitted, end);
    HitsPrimary(s, StateAt(s, t, edits, u, emitted), edits, u, emitted)
  }

  lemma {:induction false} HitsFromOn(s: Schema, t: Rows, edits: seq<Edit>, u: nat, emitted: seq<bool>, end: Rows)
    requires Midway(s, t, edits, 0, emitted, end) && u < |edits|
    ensures HitsFrom(s, t, edits, u, emitted, end) <==>
      RefusedAt(s.groups, edits, emitted, u) || HitsFrom(s, t, edits, u + 1, emitted, end)
  {
    StatesAreMidway(s, t, edits, u, emitted, end);
    HitsPrimaryOn(s, StateAt(s, t, edits, u, emitted), edits, u, emitted, end, StateAt(s, t, edits, u + 1, emitted));
  }

  /** What is so from one step or from the next on is so from some step. */
  lemma {:induction false} FromSomeStep(from: seq<bool>, steps: seq<bool>, u: nat)
    requires u <= |steps| && |from| == |steps| + 1 && !from[|steps|]
    requires forall k | 0 <= k < |steps| :: from[k] <==> steps[k] || from[k + 1]
    ensures from[u] <==> exists j | u <= j < |steps| :: steps[j]
    decreases |steps| - u
  {
    if u < |steps| {
      FromSomeStep(from, steps, u + 1);
    }
  }

  ghost function Hitting(s: Schema, t: Rows, edits: seq<Edit>, emitted: seq<bool>, end: Rows): (from: seq<bool>)
    requires Midway(s, t, edits, 0, emitted, end)
    ensures |from| == |edits| + 1
  {
    seq(|edits| + 1, u requires 0 <= u <= |edits| => HitsFrom(s, t, edits, u, emitted, end))
  }

  ghost function Refusing(groups: seq<Group>, edits: seq<Edit>, emitted: seq<bool>): (steps: seq<bool>)
    requires InColumns(groups, emitted) && Aligned(edits, emitted)
    ensures |steps| == |edits|
  {
    seq(|edits|, u requires 0 <= u < |edits| => RefusedAt(groups, edits, emitted, u))
  }

  lemma {:induction false} HittingStep(s: Schema, t: Rows, edits: seq<Edit>, emitted: seq<bool>, end: Rows, u: nat)
    requires Midway(s, t, edits, 0, emitted, end) && u < |edits|
    ensures var from, steps := Hitting(s, t, edits, emitted, end), Refusing(s.groups, edits, emitted);
      from[u] <==> steps[u] || from[u + 1]
  {
    HitsFromOn(s, t, edits, u, emitted, end);
  }

  lemma {:induction false} HittingEnds(s: Schema, t: Rows, edits: seq<Edit>, emitted: seq<bool>, end: Rows)
    requires Midway(s, t, edits, 0, emitted, end)
    ensures var from := Hitting(s, t, edits, emitted, end);
      !from[|edits|] && (from[0] <==> HitsPrimary(s, t, edits, 0, emitted))
  {
  }

  /** The updates meet a held PRIMARY KEY exactly when one of them is refused. */
  lemma {:induction false} HitsPrimaryIffRefused(s: Schema, t: Rows, edits: seq<Edit>, emitted: seq<bool>, end: Rows)
    requires Midway(s, t, edits, 0, emitted, end)
    ensures HitsPrimary(s, t, edits, 0, emitted) <==> !NoneRefused(s.groups, edits, emitted)
  {
    var from, steps := Hitting(s, t, edits, emitted, end), Refusing(s.groups, edits, emitted);
    forall k | 0 <= k < |steps| ensures from[k] <==> steps[k] || from[k + 1] {
      HittingStep(s, t, edits, emitted, end, k);
    }
    HittingEnds(s, t, edits, emitted, end);
    FromSomeStep(from, steps, 0);
    assert forall j | 0 <= j < |edits| :: steps[j] == RefusedAt(s.groups, edits, emitted, j);
  }

  /**
   Exactly when a reconcile reaches its end state, for every table and rows:
   the end state repeats no value, and no update is held up first of all by the
   PRIMARY KEY of a row that has not moved.
   */
  lemma {:induction false} ReachableIffNoneRefused(s: Schema, t: Rows, stored: seq<Held>, rows: Shaped,
      key: Option<seq<nat>>)
    requires ValidRows(s, t) && ReadFrom(stored, t) && ValidShape(s, rows) && ValidKey(s, key)
    ensures var p := PlanOf(s, t, stored, rows, key);
      && p.Valid() && AllFit(s, p.End()) && Aligned(p.Edits(), rows.emitted) && InColumns(s.groups, rows.emitted)
      && (Reachable(p) <==> Distinct(s, p.End()) && NoneRefused(s.groups, p.Edits(), rows.emitted))
  {
    PlanIsValid(s, t, stored, rows, key);
    var p := PlanOf(s, t, stored, rows, key);
    EndFits(p);
    EditsAreValid(p);
    if Distinct(s, p.End()) {
      StartsMidway(p);
      HitsPrimaryIffRefused(s, AfterDeletes(p), p.Edits(), rows.emitted, p.End());
    }
  }

  lemma {:induction false} StartsMidway(p: Plan)
    requires p.Valid() && AllFit(p.schema, p.End()) && Distinct(p.schema, p.End())
    ensures Midway(p.schema, AfterDeletes(p), p.Edits(), 0, p.wanted.emitted, p.End())
  {
    EditsAreValid(p);
    forall id: nat ensures Stays(AfterDeletes(p), p.Edits(), p.End(), id) {
      if id in AfterDeletes(p) && id !in EditIds(p.Edits()) {
        UneditedIsFinal(p, id);
      }
    }
  }
}
