/**
 The small part of SQLite the rows of one table live in: rowids, UNIQUE and
 PRIMARY KEY groups checked statement by statement, column affinity as a
 normaliser, and the largest-plus-one rowid allocator.
 */
module UserTable {
  import opened Wrappers
  import opened Values

  type Cells = seq<Value>

  type Rows = map<nat, Cells>

  /** The columns of one UNIQUE index, or of the PRIMARY KEY. */
  datatype Group = Group(columns: seq<nat>, primary: bool)

  /** `groups` are listed in the order the engine checks them. `store` is what
      a column's affinity makes of a value. */
  datatype Schema = Schema(columns: seq<string>, groups: seq<Group>, store: (nat, Value) -> Value)

  /** The extended result codes a statement can fail with: only the first is
      SQLITE_CONSTRAINT_UNIQUE. */
  datatype Constraint = Unique | PrimaryKey | Rowid

  ghost predicate ValidSchema(s: Schema) {
    && (forall i, j | 0 <= i < j < |s.columns| :: s.columns[i] != s.columns[j])
    && (forall g | g in s.groups :: g.columns != [] && forall c | c in g.columns :: c < |s.columns|)
    && (forall c: nat, v: Value :: s.store(c, s.store(c, v)) == s.store(c, v))
    && (forall c: nat, v: Value :: s.store(c, v) == Null <==> v == Null)
  }

  /** The cells at `columns`: what rows are matched and compared by. */
  function KeyOf(cells: Cells, columns: seq<nat>): (key: seq<Value>)
    requires forall c | c in columns :: c < |cells|
    ensures |key| == |columns|
  {
    seq(|columns|, i requires 0 <= i < |columns| => assert columns[i] in columns; cells[columns[i]])
  }

  /** Two rows hold one value of a group: a NULL never does. */
  predicate Clash(g: Group, a: Cells, b: Cells)
    requires forall c | c in g.columns :: c < |a| && c < |b|
  {
    KeyOf(a, g.columns) == KeyOf(b, g.columns) && Null !in KeyOf(a, g.columns)
  }

  /** Two rows clash when they hold the same, and no NULL, in every column of the
      group. */
  lemma {:induction false} ClashIsSameValues(g: Group, a: Cells, b: Cells)
    requires forall c | c in g.columns :: c < |a| && c < |b|
    ensures Clash(g, a, b) <==> forall c | c in g.columns :: a[c] == b[c] != Null
  {
    var held, other := KeyOf(a, g.columns), KeyOf(b, g.columns);
    if Clash(g, a, b) {
      forall c | c in g.columns ensures a[c] == b[c] != Null {
        var k :| 0 <= k < |g.columns| && g.columns[k] == c;
        assert held[k] == other[k] && held[k] in held;
      }
    }
    if forall c | c in g.columns :: a[c] == b[c] != Null {
      forall k | 0 <= k < |g.columns| ensures held[k] == other[k] != Null {
        assert g.columns[k] in g.columns;
      }
      assert held == other;
    }
  }

  ghost predicate Fits(s: Schema, cells: Cells) {
    |cells| == |s.columns| && forall c | 0 <= c < |cells| :: s.store(c, cells[c]) == cells[c]
  }

  ghost predicate AllFit(s: Schema, t: Rows) { forall id | id in t :: Fits(s, t[id]) }

  /** No two rows clash. */
  ghost predicate Distinct(s: Schema, t: Rows)
    requires ValidSchema(s) && AllFit(s, t)
  {
    forall g, a, b :: Differ(s, t, g, a, b)
  }

  /** Rows `a` and `b` differ on group `g`, if they are rows and it is a group. */
  ghost predicate Differ(s: Schema, t: Rows, g: Group, a: nat, b: nat)
    requires ValidSchema(s) && AllFit(s, t)
  {
    g in s.groups && a in t && b in t && a != b ==> !Clash(g, t[a], t[b])
  }

  ghost predicate ValidRows(s: Schema, t: Rows) { ValidSchema(s) && AllFit(s, t) && Distinct(s, t) }

  /** What storing `cells` keeps. */
  function Stored(s: Schema, cells: Cells): (r: Cells)
    ensures |r| == |cells|
  {
    seq(|cells|, c requires 0 <= c < |cells| => s.store(c, cells[c]))
  }

  /** A group some row other than `id` already fills with `cells`' values. */
  predicate Breaks(g: Group, t: Rows, id: nat, cells: Cells)
    requires forall c | c in g.columns :: c < |cells|
    requires forall r | r in t :: |t[r]| == |cells|
  {
    exists r | r in t :: r != id && Clash(g, cells, t[r])
  }

  /** The code of the first group that placing `cells` at `id` would break. */
  function Violation(groups: seq<Group>, t: Rows, id: nat, cells: Cells): (v: Option<Constraint>)
    requires forall g | g in groups :: forall c | c in g.columns :: c < |cells|
    requires forall r | r in t :: |t[r]| == |cells|
    ensures v == None <==> forall g | g in groups :: !Breaks(g, t, id, cells)
    ensures v == None || v == Some(Unique) || v == Some(PrimaryKey)
    ensures v == Some(PrimaryKey) ==> exists g | g in groups :: g.primary && Breaks(g, t, id, cells)
    ensures v == Some(Unique) ==> exists g | g in groups :: !g.primary && Breaks(g, t, id, cells)
  {
    if groups == [] then None
    else if Breaks(groups[0], t, id, cells) then Some(if groups[0].primary then PrimaryKey else Unique)
    else
      assert groups == [groups[0]] + groups[1..];
      Violation(groups[1..], t, id, cells)
  }

  /** Group `i` is broken and none before it is. */
  predicate FirstBroken(groups: seq<Group>, t: Rows, id: nat, cells: Cells, i: nat)
    requires forall g | g in groups :: forall c | c in g.columns :: c < |cells|
    requires forall r | r in t :: |t[r]| == |cells|
  {
    i < |groups| && Breaks(groups[i], t, id, cells) && forall h | 0 <= h < i :: !Breaks(groups[h], t, id, cells)
  }

  /** The code is that of the first broken group. */
  lemma {:induction false} FirstBrokenTells(groups: seq<Group>, t: Rows, id: nat, cells: Cells)
    requires forall g | g in groups :: forall c | c in g.columns :: c < |cells|
    requires forall r | r in t :: |t[r]| == |cells|
    ensures Violation(groups, t, id, cells) == Some(PrimaryKey) <==>
      exists i: nat :: FirstBroken(groups, t, id, cells, i) && groups[i].primary
  {
    if groups != [] && !Breaks(groups[0], t, id, cells) {
      var rest := groups[1..];
      FirstBrokenTells(rest, t, id, cells);
      forall i: nat ensures i > 0 ==>
        (FirstBroken(groups, t, id, cells, i) <==> FirstBroken(rest, t, id, cells, i - 1)) {
        LaterIsFirstBroken(groups, t, id, cells, i);
      }
      if i: nat :| FirstBroken(rest, t, id, cells, i) && rest[i].primary {
        assert FirstBroken(groups, t, id, cells, i + 1);
      }
      if i: nat :| FirstBroken(groups, t, id, cells, i) && groups[i].primary {
        assert FirstBroken(rest, t, id, cells, i - 1);
      }
    } else if groups != [] {
      assert FirstBroken(groups, t, id, cells, 0);
    }
  }

  lemma {:induction false} LaterIsFirstBroken(groups: seq<Group>, t: Rows, id: nat, cells: Cells, i: nat)
    requires forall g | g in groups :: forall c | c in g.columns :: c < |cells|
    requires forall r | r in t :: |t[r]| == |cells|
    requires groups != [] && !Breaks(groups[0], t, id, cells)
    ensures i > 0 ==> (FirstBroken(groups, t, id, cells, i) <==> FirstBroken(groups[1..], t, id, cells, i - 1))
  {
    var rest := groups[1..];
    if 0 < i && FirstBroken(rest, t, id, cells, i - 1) {
      forall h | 0 < h < i ensures !Breaks(groups[h], t, id, cells) {
        assert rest[h - 1] == groups[h];
      }
    }
    if 0 < i && FirstBroken(groups, t, id, cells, i) {
      forall h | 0 <= h < i - 1 ensures !Breaks(rest[h], t, id, cells) {
        assert rest[h] == groups[h + 1];
      }
    }
  }

  /** The largest rowid, or zero when there is none. */
  function MaxId(ids: set<nat>): (m: nat)
    ensures forall id | id in ids :: id <= m
    ensures ids != {} ==> m in ids
    ensures ids == {} ==> m == 0
  {
    if ids == {} then 0
    else
      HasMax(ids);
      var id :| id in ids && forall other | other in ids :: other <= id;
      id
  }

  lemma {:induction false} HasMax(ids: set<nat>)
    requires ids != {}
    ensures exists id :: id in ids && forall other | other in ids :: other <= id
    decreases |ids|
  {
    var id :| id in ids;
    if ids != {id} {
      HasMax(ids - {id});
      var m :| m in ids - {id} && forall other | other in ids - {id} :: other <= m;
      var top := if id > m then id else m;
      assert top in ids;
      forall other | other in ids ensures other <= top {
        assert other == id || other in ids - {id};
      }
    }
  }

  /** Whether `t` with `cells` at `id` would still hold no clash. */
  lemma {:induction false} PlacingKeepsDistinct(s: Schema, t: Rows, id: nat, cells: Cells)
    requires ValidRows(s, t) && Fits(s, cells)
    ensures Violation(s.groups, t, id, cells) == None <==> ValidRows(s, t[id := cells])
  {
    var t' := t[id := cells];
    if Violation(s.groups, t, id, cells) == None {
      forall g, a, b ensures Differ(s, t', g, a, b) {
        PlacedDiffer(s, t, id, cells, g, a, b);
      }
    } else {
      var g :| g in s.groups && Breaks(g, t, id, cells);
      var r :| r in t && r != id && Clash(g, cells, t[r]);
      assert !Differ(s, t', g, id, r);
    }
  }

  lemma {:induction false} PlacedDiffer(s: Schema, t: Rows, id: nat, cells: Cells, g: Group, a: nat, b: nat)
    requires ValidRows(s, t) && Fits(s, cells) && (g in s.groups ==> !Breaks(g, t, id, cells))
    ensures AllFit(s, t[id := cells]) && Differ(s, t[id := cells], g, a, b)
  {
    assert Differ(s, t, g, a, b);
  }

  /** Some of the rows of a sound table are a sound table. */
  lemma {:induction false} FewerDiffer(s: Schema, fewer: Rows, all: Rows)
    requires ValidRows(s, all) && forall id | id in fewer :: id in all && fewer[id] == all[id]
    ensures ValidRows(s, fewer)
  {
    forall g, a, b ensures Differ(s, fewer, g, a, b) {
      assert Differ(s, all, g, a, b);
    }
  }

  /** The rows of one user table, changed a statement at a time. A statement
      that fails changes nothing. */
  class TableStore {
    const schema: Schema
    var rows: Rows

    constructor (schema: Schema)
      requires ValidSchema(schema)
      ensures this.schema == schema && rows == map[] && Valid()
    {
      this.schema := schema;
      rows := map[];
    }

    ghost predicate Valid()
      reads this
    {
      ValidRows(schema, rows)
    }

    /** ROLLBACK to the rows a transaction started from. */
    method Rollback(saved: Rows)
      requires ValidRows(schema, saved)
      modifies this
      ensures Valid() && rows == saved
    {
      rows := saved;
    }

    /** DELETE of every row whose rowid is among `ids`: how many there were. */
    method DeleteAll(ids: set<nat>) returns (count: nat)
      requires Valid()
      modifies this
      ensures Valid() && rows == old(rows) - ids && count == |old(rows).Keys * ids|
    {
      count := |rows.Keys * ids|;
      FewerDiffer(schema, rows - ids, rows);
      rows := rows - ids;
    }

    /** DELETE FROM t WHERE rowid = id */
    method Delete(id: nat)
      requires Valid()
      modifies this
      ensures Valid() && rows == old(rows) - {id}
    {
      FewerDiffer(schema, rows - {id}, rows);
      rows := rows - {id};
    }

    /** UPDATE t SET the chosen columns WHERE rowid = id */
    method Update(id: nat, values: Cells, chosen: seq<bool>) returns (failed: Option<Constraint>)
      requires Valid() && id in rows && |values| == |chosen| == |schema.columns|
      modifies this
      ensures Valid()
      ensures var cells := Stored(schema, Merge(old(rows)[id], values, chosen));
        && failed == Violation(schema.groups, old(rows), id, cells)
        && rows == if failed.None? then old(rows)[id := cells] else old(rows)
      ensures failed.None? ==> |rows[id]| == |values| && forall c | 0 <= c < |values| ::
        rows[id][c] == if chosen[c] then schema.store(c, values[c]) else old(rows)[id][c]
    {
      var cells := Stored(schema, Merge(rows[id], values, chosen));
      failed := Violation(schema.groups, rows, id, cells);
      PlacingKeepsDistinct(schema, rows, id, cells);
      if failed.None? {
        rows := rows[id := cells];
      }
    }

    /** INSERT with an explicit rowid. */
    method InsertAt(id: nat, values: Cells) returns (failed: Option<Constraint>)
      requires Valid() && |values| == |schema.columns|
      modifies this
      ensures Valid()
      ensures failed ==
        if id in old(rows) then Some(Rowid) else Violation(schema.groups, old(rows), id, Stored(schema, values))
      ensures rows == if failed.None? then old(rows)[id := Stored(schema, values)] else old(rows)
    {
      if id in rows {
        return Some(Rowid);
      }
      var cells := Stored(schema, values);
      failed := Violation(schema.groups, rows, id, cells);
      PlacingKeepsDistinct(schema, rows, id, cells);
      if failed.None? {
        rows := rows[id := cells];
      }
    }

    /** INSERT with the rowid the allocator picks: one past the largest. */
    method Insert(values: Cells) returns (failed: Option<Constraint>, id: nat)
      requires Valid() && |values| == |schema.columns|
      modifies this
      ensures Valid()
      ensures id == MaxId(old(rows).Keys) + 1
      ensures failed == Violation(schema.groups, old(rows), id, Stored(schema, values))
      ensures rows == if failed.None? then old(rows)[id := Stored(schema, values)] else old(rows)
      ensures failed.None? ==>
        |rows[id]| == |values| && forall c | 0 <= c < |values| :: rows[id][c] == schema.store(c, values[c])
    {
      id := MaxId(rows.Keys) + 1;
      failed := InsertAt(id, values);
    }
  }

  /** `before` with the chosen columns taken from `new`. */
  function Merge(before: Cells, values: Cells, chosen: seq<bool>): (r: Cells)
    requires |before| == |values| == |chosen|
    ensures |r| == |before|
  {
    seq(|before|, c requires 0 <= c < |before| => if chosen[c] then values[c] else before[c])
  }
}
