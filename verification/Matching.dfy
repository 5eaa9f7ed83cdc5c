/**
 Which rows a reconcile matches (`reconcile_rows` in db.rs), told by the cells of
 the rows: those of the key's columns or, without a key, of every column some
 wanted row carries.
 */
module Matching {
  import opened Wrappers
  import opened Values
  import opened UserTable
  import opened Reconcile
  import opened ReconcileEvents
  import Claims

  /** Two rows hold the same in the columns rows are matched by. */
  ghost predicate Alike(a: Cells, b: Cells, key: Option<seq<nat>>, emitted: seq<bool>) {
    |a| == |b| == |emitted| &&
    if key.Some? then forall c | c in key.value :: c < |a| && a[c] == b[c]
    else forall c | 0 <= c < |emitted| && emitted[c] :: a[c] == b[c]
  }

  lemma {:induction false} KeysAlike(a: Cells, b: Cells, columns: seq<nat>)
    requires forall c | c in columns :: c < |a| && c < |b|
    ensures KeyOf(a, columns) == KeyOf(b, columns) <==> forall c | c in columns :: a[c] == b[c]
  {
    if KeyOf(a, columns) == KeyOf(b, columns) {
      forall c | c in columns ensures a[c] == b[c] {
        var k :| 0 <= k < |columns| && columns[k] == c;
        assert KeyOf(a, columns)[k] == KeyOf(b, columns)[k];
      }
    }
  }

  /** The identities rows are matched by tell exactly the rows that are not alike. */
  lemma {:induction false} MatchedByAlike(a: Cells, b: Cells, key: Option<seq<nat>>, emitted: seq<bool>)
    requires |a| == |b| == |emitted| && (key.Some? ==> forall c | c in key.value :: c < |emitted|)
    ensures KeyOf(a, MatchOn(key, emitted)) == KeyOf(b, MatchOn(key, emitted)) <==> Alike(a, b, key, emitted)
  {
    KeysAlike(a, b, MatchOn(key, emitted));
  }

  /** Wanted row `i` and stored row `at` of a plan are alike. */
  ghost predicate Match(p: Plan, key: Option<seq<nat>>, i: nat, at: nat)
    requires p.Shaped()
  {
    i < |p.claims| && at < |p.stored| && Alike(p.stored[at].cells, p.wanted.cells[i], key, p.wanted.emitted)
  }

  lemma {:induction false} KeysMatch(s: Schema, t: Rows, stored: seq<Held>, rows: Shaped, key: Option<seq<nat>>, i: nat,
      at: nat)
    requires ValidRows(s, t) && ReadFrom(stored, t) && ValidShape(s, rows) && ValidKey(s, key)
    requires PlanOf(s, t, stored, rows, key).Valid() && i < |rows.cells| && at < |stored|
    ensures var p, on := PlanOf(s, t, stored, rows, key), MatchOn(key, rows.emitted);
      Keys(CellsOf(stored), on)[at] == Keys(p.wanted.cells, on)[i] <==> Match(p, key, i, at)
  {
    var p := PlanOf(s, t, stored, rows, key);
    MatchedByAlike(stored[at].cells, p.wanted.cells[i], key, rows.emitted);
  }

  /** A claimed row is alike the row that claims it. */
  lemma {:induction false} ClaimedMatch(s: Schema, t: Rows, stored: seq<Held>, rows: Shaped, key: Option<seq<nat>>,
      i: nat)
    requires ValidRows(s, t) && ReadFrom(stored, t) && ValidShape(s, rows) && ValidKey(s, key)
    requires PlanOf(s, t, stored, rows, key).Valid()
    requires i < |rows.cells| && PlanOf(s, t, stored, rows, key).claims[i].Some?
    ensures var p := PlanOf(s, t, stored, rows, key); Match(p, key, i, p.claims[i].value)
  {
    var p, on := PlanOf(s, t, stored, rows, key), MatchOn(key, rows.emitted);
    assert p.claims[i] == Claims.ClaimOf(Keys(CellsOf(stored), on), Keys(p.wanted.cells, on), i);
    KeysMatch(s, t, stored, rows, key, i, p.claims[i].value);
  }

  /** A wanted row goes unclaimed only when every stored row alike is claimed by
      another: nothing is deleted that could have stayed. */
  lemma {:induction false} UnclaimedOnlyWhenNoneLeft(s: Schema, t: Rows, stored: seq<Held>, rows: Shaped,
      key: Option<seq<nat>>, i: nat, at: nat)
    requires ValidRows(s, t) && ReadFrom(stored, t) && ValidShape(s, rows) && ValidKey(s, key)
    requires PlanOf(s, t, stored, rows, key).Valid()
    requires i < |rows.cells| && PlanOf(s, t, stored, rows, key).claims[i].None?
    requires Match(PlanOf(s, t, stored, rows, key), key, i, at)
    ensures exists j | 0 <= j < |rows.cells| :: j != i && PlanOf(s, t, stored, rows, key).claims[j] == Some(at)
  {
    var p, on := PlanOf(s, t, stored, rows, key), MatchOn(key, rows.emitted);
    var held, wanted := Keys(CellsOf(stored), on), Keys(p.wanted.cells, on);
    KeysMatch(s, t, stored, rows, key, i, at);
    assert p.claims[i] == Claims.ClaimOf(held, wanted, i);
    Claims.LeftoversNeverMatch(held, wanted, i, at);
    var j :| 0 <= j < |wanted| && Claims.ClaimOf(held, wanted, j) == Some(at);
    assert p.claims[j] == Some(at);
  }

  // ------------------------------------------------------- the same rows again

  /** What the wanted rows can say of a row: its cells in the emitted columns. */
  function Told(cells: Cells, emitted: seq<bool>): (told: seq<Option<Value>>)
    requires |cells| == |emitted|
    ensures |told| == |cells|
  {
    seq(|cells|, c requires 0 <= c < |cells| => if emitted[c] then Some(cells[c]) else None)
  }

  function AllTold(rows: seq<Cells>, emitted: seq<bool>): (r: seq<seq<Option<Value>>>)
    requires forall i | 0 <= i < |rows| :: |rows[i]| == |emitted|
    ensures |r| == |rows|
  {
    seq(|rows|, i requires 0 <= i < |rows| => Told(rows[i], emitted))
  }

  lemma {:induction false} ToldAlike(a: Cells, b: Cells, emitted: seq<bool>)
    requires |a| == |b| == |emitted|
    ensures Told(a, emitted) == Told(b, emitted) <==> Alike(a, b, None, emitted)
  {
    if Told(a, emitted) == Told(b, emitted) {
      forall c | 0 <= c < |emitted| && emitted[c] ensures a[c] == b[c] {
        assert Told(a, emitted)[c] == Told(b, emitted)[c];
      }
    }
  }

  lemma {:induction false} IdentityTells(a: Cells, b: Cells, emitted: seq<bool>)
    requires |a| == |b| == |emitted|
    ensures var on := MatchOn(None, emitted);
      KeyOf(a, on) == KeyOf(b, on) <==> Told(a, emitted) == Told(b, emitted)
  {
    MatchedByAlike(a, b, None, emitted);
    ToldAlike(a, b, emitted);
  }

  /** Rows are counted by what is told of them as by what they are matched by. */
  lemma {:induction false} CountedByTold(rows: seq<Cells>, emitted: seq<bool>, n: nat, cells: Cells)
    requires (forall i | 0 <= i < |rows| :: |rows[i]| == |emitted|) && |cells| == |emitted| && n <= |rows|
    ensures var on := MatchOn(None, emitted);
      Claims.Count(Keys(rows, on), n, KeyOf(cells, on)) == multiset(AllTold(rows, emitted)[..n])[Told(cells, emitted)]
  {
    var on := MatchOn(None, emitted);
    forall i | 0 <= i < |rows|
      ensures Keys(rows, on)[i] == KeyOf(cells, on) <==> AllTold(rows, emitted)[i] == Told(cells, emitted)
    {
      IdentityTells(rows[i], cells, emitted);
    }
    Claims.CountAlike(Keys(rows, on), AllTold(rows, emitted), n, KeyOf(cells, on), Told(cells, emitted));
    Claims.CountIsBag(AllTold(rows, emitted), n, Told(cells, emitted));
  }

  /** The stored rows and the wanted ones are the same bag, as far as the wanted
      ones tell. */
  ghost predicate SameRows(p: Plan)
    requires p.Shaped()
  {
    multiset(AllTold(CellsOf(p.stored), p.wanted.emitted)) == multiset(AllTold(p.wanted.cells, p.wanted.emitted))
  }

  lemma {:induction false} SameRowsCount(p: Plan, cells: Cells)
    requires p.Shaped() && SameRows(p) && |cells| == |p.wanted.emitted|
    ensures var on, emitted := MatchOn(None, p.wanted.emitted), p.wanted.emitted;
      Claims.Count(Keys(CellsOf(p.stored), on), |p.stored|, KeyOf(cells, on)) ==
      Claims.Count(Keys(p.wanted.cells, on), |p.claims|, KeyOf(cells, on))
  {
    var stored, wanted, emitted := CellsOf(p.stored), p.wanted.cells, p.wanted.emitted;
    CountedByTold(stored, emitted, |stored|, cells);
    CountedByTold(wanted, emitted, |wanted|, cells);
    assert AllTold(stored, emitted)[..|stored|] == AllTold(stored, emitted);
    assert AllTold(wanted, emitted)[..|wanted|] == AllTold(wanted, emitted);
  }

  lemma {:induction false} SameRowsAllClaim(s: Schema, t: Rows, stored: seq<Held>, rows: Shaped, i: nat)
    requires ValidRows(s, t) && ReadFrom(stored, t) && ValidShape(s, rows)
    requires PlanOf(s, t, stored, rows, None).Valid() && SameRows(PlanOf(s, t, stored, rows, None))
    requires i < |rows.cells|
    ensures PlanOf(s, t, stored, rows, None).claims[i].Some?
  {
    var p, on := PlanOf(s, t, stored, rows, None), MatchOn(None, rows.emitted);
    var held, wanted := Keys(CellsOf(stored), on), Keys(p.wanted.cells, on);
    SameRowsCount(p, p.wanted.cells[i]);
    Claims.CountMonotone(wanted, i, |wanted|, wanted[i]);
    assert p.claims[i] == Claims.ClaimOf(held, wanted, i);
  }

  lemma {:induction false} SameRowsAllClaimed(s: Schema, t: Rows, stored: seq<Held>, rows: Shaped, at: nat)
    requires ValidRows(s, t) && ReadFrom(stored, t) && ValidShape(s, rows)
    requires PlanOf(s, t, stored, rows, None).Valid() && SameRows(PlanOf(s, t, stored, rows, None))
    requires at < |stored|
    ensures Some(at) in PlanOf(s, t, stored, rows, None).claims
  {
    var p, on := PlanOf(s, t, stored, rows, None), MatchOn(None, rows.emitted);
    var held, wanted := Keys(CellsOf(stored), on), Keys(p.wanted.cells, on);
    SameRowsCount(p, stored[at].cells);
    Claims.CountMonotone(held, at, |held|, held[at]);
    Claims.EnoughClaim(held, wanted, at);
    var j :| 0 <= j < |wanted| && Claims.ClaimOf(held, wanted, j) == Some(at);
    assert p.claims[j] == Some(at);
  }

  /**
   Without a key, rows that already are the stored ones, in any order, change
   nothing: no row is written, and the end state is the table as it was.
   */
  lemma {:induction false} SameRowsChangeNothing(s: Schema, t: Rows, stored: seq<Held>, rows: Shaped)
    requires ValidRows(s, t) && ReadFrom(stored, t) && ValidShape(s, rows)
    requires PlanOf(s, t, stored, rows, None).Valid() && SameRows(PlanOf(s, t, stored, rows, None))
    ensures var p := PlanOf(s, t, stored, rows, None);
      ChangesOf(p, false).IsEmpty() && p.End() == t && Reachable(p)
  {
    var p := PlanOf(s, t, stored, rows, None);
    var removed, added := p.RemovedUpTo(|p.stored|), p.AddedUpTo(|p.claims|);
    MatchedWholeNeverChanges(s, t, stored, rows);
    if removed != [] {
      SameRowsAllClaimed(s, t, stored, rows, removed[0]);
    }
    if added != [] {
      SameRowsAllClaim(s, t, stored, rows, added[0]);
    }
    NothingToDo(p);
  }
}
