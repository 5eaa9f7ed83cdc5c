/**
 The events of a reconcile: replaying `diff_keyed` over what `reconcile_rows`
 changed, or `diff_unordered` when rows are matched whole, turns the rows the file
 had into the rows it has.
 */
module ReconcileEvents {
  import opened Wrappers
  import opened Values
  import opened UserTable
  import opened Reconcile
  import opened Differ
  import Claims

  lemma {:induction false} PickedWithout<T>(rows: seq<T>, at: seq<nat>, k: nat)
    requires forall i | 0 <= i < |at| :: at[i] < |rows|
    requires k < |at|
    ensures multiset(Picked(rows, at)) == multiset(Picked(rows, at[..k] + at[k + 1..])) + multiset{rows[at[k]]}
  {
    assert Picked(rows, at[..k] + at[k + 1..]) == Picked(rows, at[..k]) + Picked(rows, at[k + 1..]);
    assert Picked(rows, at) == Picked(rows, at[..k]) + [rows[at[k]]] + Picked(rows, at[k + 1..]);
  }

  /** `at` lists each of the first `n` positions once. */
  ghost predicate Lists(at: seq<nat>, n: nat) {
    && (forall k | 0 <= k < |at| :: at[k] < n)
    && (forall i, j | 0 <= i < j < |at| :: at[i] != at[j])
    && (forall m: nat | m < n :: m in at)
  }

  lemma {:induction false} ListsFewer(at: seq<nat>, n: nat, k: nat)
    requires Lists(at, n + 1) && k < |at| && at[k] == n
    ensures Lists(at[..k] + at[k + 1..], n)
  {
    var rest := at[..k] + at[k + 1..];
    forall i | 0 <= i < |rest| ensures rest[i] < n {
      assert rest[i] == at[if i < k then i else i + 1];
    }
    forall m: nat | m < n ensures m in rest {
      assert m in at;
      var j :| 0 <= j < |at| && at[j] == m;
      assert rest[if j < k then j else j - 1] == m;
    }
  }

  /** Each position once, in any order, picks every row once. */
  lemma {:induction false} PickingAllKeepsBag<T>(rows: seq<T>, at: seq<nat>)
    requires Lists(at, |rows|)
    ensures multiset(Picked(rows, at)) == multiset(rows)
    decreases |rows|
  {
    if rows != [] {
      var last := |rows| - 1;
      assert last in at;
      var k :| 0 <= k < |at| && at[k] == last;
      var rest, init := at[..k] + at[k + 1..], rows[..last];
      ListsFewer(at, last, k);
      PickingAllKeepsBag(init, rest);
      PickedWithout(rows, at, k);
      assert Picked(init, rest) == Picked(rows, rest);
      assert rows == init + [rows[last]];
    }
  }

  /** The stored positions the first `n` wanted rows claim. */
  function ClaimedUpTo(p: Plan, n: nat): (r: seq<nat>)
    requires p.Shaped() && n <= |p.claims|
    ensures forall k | 0 <= k < |r| :: r[k] < |p.stored| && Some(r[k]) in p.claims[..n]
    ensures forall at: nat | Some(at) in p.claims[..n] :: at in r
  {
    if n == 0 then []
    else
      assert p.claims[..n] == p.claims[..n - 1] + [p.claims[n - 1]];
      ClaimedUpTo(p, n - 1) + if p.claims[n - 1].Some? then [p.claims[n - 1].value] else []
  }

  lemma {:induction false} ClaimedOnce(p: Plan, n: nat)
    requires p.Valid() && n <= |p.claims|
    ensures forall i, j | 0 <= i < j < |ClaimedUpTo(p, n)| :: ClaimedUpTo(p, n)[i] != ClaimedUpTo(p, n)[j]
  {
    if n > 0 {
      ClaimedOnce(p, n - 1);
      var before := ClaimedUpTo(p, n - 1);
      if p.claims[n - 1].Some? {
        forall i | 0 <= i < |before| ensures before[i] != p.claims[n - 1].value {
          var j :| 0 <= j < n - 1 && p.claims[j] == Some(before[i]);
          ClaimsDiffer(p, j, n - 1);
        }
      }
    }
  }

  lemma {:induction false} RemovedOnce(p: Plan, n: nat)
    requires n <= |p.stored|
    ensures forall i, j | 0 <= i < j < |p.RemovedUpTo(n)| :: p.RemovedUpTo(n)[i] < p.RemovedUpTo(n)[j]
  {
    if n > 0 {
      RemovedOnce(p, n - 1);
    }
  }

  /** Every stored row is either removed or claimed. */
  lemma {:induction false} StoredSplits(p: Plan, rows: seq<Row>)
    requires p.Valid() && |rows| == |p.stored|
    ensures multiset(rows) ==
      multiset(Picked(rows, p.RemovedUpTo(|p.stored|))) + multiset(Picked(rows, ClaimedUpTo(p, |p.claims|)))
  {
    var removed, claimed := p.RemovedUpTo(|p.stored|), ClaimedUpTo(p, |p.claims|);
    RemovedOrClaimed(p);
    PickingAllKeepsBag(rows, removed + claimed);
    assert Picked(rows, removed + claimed) == Picked(rows, removed) + Picked(rows, claimed);
  }

  lemma {:induction false} RemovedOrClaimed(p: Plan)
    requires p.Valid()
    ensures Lists(p.RemovedUpTo(|p.stored|) + ClaimedUpTo(p, |p.claims|), |p.stored|)
  {
    var removed, claimed := p.RemovedUpTo(|p.stored|), ClaimedUpTo(p, |p.claims|);
    assert p.claims[..|p.claims|] == p.claims;
    RemovedOnce(p, |p.stored|);
    ClaimedOnce(p, |p.claims|);
    forall n: nat | n < |p.stored| ensures n in removed + claimed {
      assert Some(n) in p.claims || n in removed;
    }
  }

  /** The stored rows, as maps. */
  function StoredMaps(p: Plan): (r: seq<Row>)
    requires p.Shaped() && |p.schema.columns| == |p.wanted.emitted|
    ensures |r| == |p.stored|
  {
    seq(|p.stored|, i requires 0 <= i < |p.stored| => ToMap(p.schema.columns, p.stored[i].cells))
  }

  /** The wanted rows as they end up, as maps. */
  function FinalMaps(p: Plan): (r: seq<Row>)
    requires p.Shaped() && |p.schema.columns| == |p.wanted.emitted|
    ensures |r| == |p.claims|
  {
    seq(|p.claims|, i requires 0 <= i < |p.claims| => ToMap(p.schema.columns, p.Final(i)))
  }

  /** Those of the first `n` final rows that were matched, and those that are new. */
  function Kept(p: Plan, n: nat, matched: bool): seq<Row>
    requires p.Shaped() && |p.schema.columns| == |p.wanted.emitted| && n <= |p.claims|
  {
    if n == 0 then []
    else Kept(p, n - 1, matched) + if p.claims[n - 1].Some? == matched then [FinalMaps(p)[n - 1]] else []
  }

  /** One bag is the sum of two. */
  ghost predicate BagsAdd(a: seq<Row>, b: seq<Row>, all: seq<Row>) { multiset(all) == multiset(a) + multiset(b) }

  lemma {:induction false} BagsAddLeft(a: seq<Row>, b: seq<Row>, all: seq<Row>, row: Row)
    requires BagsAdd(a, b, all)
    ensures BagsAdd(a + [row], b, all + [row])
  {
    BagGrows(a, row);
    BagGrows(all, row);
  }

  lemma {:induction false} BagsAddRight(a: seq<Row>, b: seq<Row>, all: seq<Row>, row: Row)
    requires BagsAdd(a, b, all)
    ensures BagsAdd(a, b + [row], all + [row])
  {
    BagGrows(b, row);
    BagGrows(all, row);
  }

  lemma {:induction false} BagsAddOne(a: seq<Row>, b: seq<Row>, all: seq<Row>, left: bool, row: Row, a': seq<Row>,
      b': seq<Row>, all': seq<Row>)
    requires BagsAdd(a, b, all) && all' == all + [row]
    requires a' == (a + if left then [row] else []) && b' == (b + if !left then [row] else [])
    ensures BagsAdd(a', b', all')
  {
    if left {
      BagsAddLeft(a, b, all, row);
    } else {
      BagsAddRight(a, b, all, row);
    }
  }

  lemma {:induction false} PrefixGrows(rows: seq<Row>, n: nat)
    requires 0 < n <= |rows|
    ensures rows[..n] == rows[..n - 1] + [rows[n - 1]]
  {
  }

  lemma {:induction false} FinalSplits(p: Plan, n: nat)
    requires p.Shaped() && |p.schema.columns| == |p.wanted.emitted| && n <= |p.claims|
    ensures BagsAdd(Kept(p, n, true), Kept(p, n, false), FinalMaps(p)[..n])
  {
    if n > 0 {
      FinalSplits(p, n - 1);
      var finals := FinalMaps(p);
      PrefixGrows(finals, n);
      BagsAddOne(Kept(p, n - 1, true), Kept(p, n - 1, false), finals[..n - 1], p.claims[n - 1].Some?, finals[n - 1],
        Kept(p, n, true), Kept(p, n, false), finals[..n]);
    }
  }

  /** The new rows are the ones reported as added. */
  lemma {:induction false} AddedAreNew(p: Plan, n: nat)
    requires p.Shaped() && |p.schema.columns| == |p.wanted.emitted| && n <= |p.claims|
    ensures Kept(p, n, false) ==
      seq(|p.AddedUpTo(n)|,
        k requires 0 <= k < |p.AddedUpTo(n)| => ToMap(p.schema.columns, p.wanted.cells[p.AddedUpTo(n)[k]]))
  {
    if n > 0 {
      AddedAreNew(p, n - 1);
    }
  }

  /** The changed rows, before and after. */
  function Before(p: Plan, changed: seq<nat>): (r: seq<Row>)
    requires p.Shaped() && |p.schema.columns| == |p.wanted.emitted|
    requires forall k | 0 <= k < |changed| :: changed[k] < |p.claims| && p.claims[changed[k]].Some?
    ensures |r| == |changed|
  {
    seq(|changed|, k requires 0 <= k < |changed| => StoredMaps(p)[p.claims[changed[k]].value])
  }

  function After(p: Plan, changed: seq<nat>): (r: seq<Row>)
    requires p.Shaped() && |p.schema.columns| == |p.wanted.emitted|
    requires forall k | 0 <= k < |changed| :: changed[k] < |p.claims|
    ensures |r| == |changed|
  {
    seq(|changed|, k requires 0 <= k < |changed| => FinalMaps(p)[changed[k]])
  }

  /** A claimed row that does not change ends as it was. */
  ghost predicate UnchangedStay(p: Plan)
    requires p.Shaped()
  {
    forall i | 0 <= i < |p.claims| && p.claims[i].Some? && !p.Changes(i) ::
      p.Final(i) == p.stored[p.claims[i].value].cells
  }

  lemma {:induction false} UnchangedRowsStay(p: Plan)
    requires p.Valid()
    ensures UnchangedStay(p)
  {
    forall i | 0 <= i < |p.claims| && p.claims[i].Some? && !p.Changes(i)
      ensures p.Final(i) == p.stored[p.claims[i].value].cells
    {
      UnchangedIsFinal(p, i);
    }
  }

  /** The claimed rows, and those of them that change before and after, of the
      first `n` wanted rows. */
  function ClaimedRows(p: Plan, n: nat): seq<Row>
    requires p.Shaped() && |p.schema.columns| == |p.wanted.emitted| && n <= |p.claims|
  {
    if n == 0 then []
    else ClaimedRows(p, n - 1) + if p.claims[n - 1].Some? then [StoredMaps(p)[p.claims[n - 1].value]] else []
  }

  function BeforeRows(p: Plan, n: nat): seq<Row>
    requires p.Shaped() && |p.schema.columns| == |p.wanted.emitted| && n <= |p.claims|
  {
    if n == 0 then []
    else BeforeRows(p, n - 1) + if p.Changes(n - 1) then [StoredMaps(p)[p.claims[n - 1].value]] else []
  }

  function AfterRows(p: Plan, n: nat): seq<Row>
    requires p.Shaped() && |p.schema.columns| == |p.wanted.emitted| && n <= |p.claims|
  {
    if n == 0 then []
    else AfterRows(p, n - 1) + if p.Changes(n - 1) then [FinalMaps(p)[n - 1]] else []
  }

  lemma {:induction false} ClaimedRowsArePicked(p: Plan, n: nat)
    requires p.Shaped() && |p.schema.columns| == |p.wanted.emitted| && n <= |p.claims|
    ensures ClaimedRows(p, n) == Picked(StoredMaps(p), ClaimedUpTo(p, n))
  {
    if n > 0 {
      ClaimedRowsArePicked(p, n - 1);
    }
  }

  lemma {:induction false} BeforeRowsArePicked(p: Plan, n: nat)
    requires p.Shaped() && |p.schema.columns| == |p.wanted.emitted| && n <= |p.claims|
    ensures BeforeRows(p, n) == Before(p, p.ChangedUpTo(n))
  {
    if n > 0 {
      BeforeRowsArePicked(p, n - 1);
    }
  }

  lemma {:induction false} AfterRowsArePicked(p: Plan, n: nat)
    requires p.Shaped() && |p.schema.columns| == |p.wanted.emitted| && n <= |p.claims|
    ensures AfterRows(p, n) == After(p, p.ChangedUpTo(n))
  {
    if n > 0 {
      AfterRowsArePicked(p, n - 1);
    }
  }

  lemma {:induction false} RowsArePicked(p: Plan, n: nat)
    requires p.Shaped() && |p.schema.columns| == |p.wanted.emitted| && n <= |p.claims|
    ensures ClaimedRows(p, n) == Picked(StoredMaps(p), ClaimedUpTo(p, n))
    ensures BeforeRows(p, n) == Before(p, p.ChangedUpTo(n))
    ensures AfterRows(p, n) == After(p, p.ChangedUpTo(n))
  {
    ClaimedRowsArePicked(p, n);
    BeforeRowsArePicked(p, n);
    AfterRowsArePicked(p, n);
  }

  /** One wanted row more: `o` claimed and `w` wanted, the same unless it changes. */
  lemma {:induction false} SwapStep(a: seq<Row>, x: seq<Row>, y: seq<Row>, b: seq<Row>, a': seq<Row>, x': seq<Row>,
      y': seq<Row>, b': seq<Row>,
                 changes: bool, o: Row, w: Row)
    requires BagsSwap(a, x, y, b) && (!changes ==> o == w)
    requires a' == a + [o] && b' == b + [w]
    requires x' == (x + if changes then [o] else []) && y' == (y + if changes then [w] else [])
    ensures BagsSwap(a', x', y', b')
  {
    if changes {
      BagsSwapOther(a, x, y, b, o, w);
    } else {
      assert x + [] == x && y + [] == y;
      BagsSwapSame(a, x, y, b, o);
    }
  }

  /** Among the first `n` wanted rows, updating the changed ones turns the
      claimed rows into the matched ones. */
  ghost predicate Swapped(p: Plan, n: nat)
    requires p.Shaped() && |p.schema.columns| == |p.wanted.emitted| && n <= |p.claims|
  {
    BagsSwap(ClaimedRows(p, n), BeforeRows(p, n), AfterRows(p, n), Kept(p, n, true))
  }

  lemma {:induction false} ClaimedSwaps(p: Plan, n: nat)
    requires p.Shaped() && |p.schema.columns| == |p.wanted.emitted| && UnchangedStay(p)
    requires 0 < n <= |p.claims| && p.claims[n - 1].Some? && Swapped(p, n - 1)
    ensures Swapped(p, n)
  {
    SwapStep(ClaimedRows(p, n - 1), BeforeRows(p, n - 1), AfterRows(p, n - 1), Kept(p, n - 1, true),
      ClaimedRows(p, n), BeforeRows(p, n), AfterRows(p, n), Kept(p, n, true),
      p.Changes(n - 1), StoredMaps(p)[p.claims[n - 1].value], FinalMaps(p)[n - 1]);
  }

  lemma {:induction false} UnclaimedSwaps(p: Plan, n: nat)
    requires p.Shaped() && |p.schema.columns| == |p.wanted.emitted|
    requires 0 < n <= |p.claims| && p.claims[n - 1].None? && Swapped(p, n - 1)
    ensures Swapped(p, n)
  {
    var a, x, y, b := ClaimedRows(p, n - 1), BeforeRows(p, n - 1), AfterRows(p, n - 1), Kept(p, n - 1, true);
    assert a + [] == a && x + [] == x && y + [] == y && b + [] == b;
  }

  lemma {:induction false} ChangesSwap(p: Plan, n: nat)
    requires p.Shaped() && |p.schema.columns| == |p.wanted.emitted| && n <= |p.claims| && UnchangedStay(p)
    ensures Swapped(p, n)
  {
    if n > 0 {
      ChangesSwap(p, n - 1);
      if p.claims[n - 1].Some? {
        ClaimedSwaps(p, n);
      } else {
        UnclaimedSwaps(p, n);
      }
    }
  }

  /** The keyed events are the deletes, updates and inserts of the plan. */
  lemma {:induction false} KeyedEvents(p: Plan, keyed: bool)
    requires p.Shaped() && |p.schema.columns| == |p.wanted.emitted|
    ensures var c, changed := ChangesOf(p, keyed), p.ChangedUpTo(|p.claims|);
      && DiffKeyed(c.removed, c.updated, c.added) == Events(c.removed, Before(p, changed), After(p, changed), c.added)
      && c.removed == Picked(StoredMaps(p), p.RemovedUpTo(|p.stored|))
      && c.added == Kept(p, |p.claims|, false)
  {
    AddedAreNew(p, |p.claims|);
    UpdatedArePairs(p, keyed);
  }

  lemma {:induction false} UpdatedArePairs(p: Plan, keyed: bool)
    requires p.Shaped() && |p.schema.columns| == |p.wanted.emitted|
    ensures var c, changed := ChangesOf(p, keyed), p.ChangedUpTo(|p.claims|);
      seq(|c.updated|, i requires 0 <= i < |c.updated| => Update(c.updated[i].0, c.updated[i].1)) ==
      Updates(Before(p, changed), After(p, changed))
  {
    var c, changed, edits := ChangesOf(p, keyed), p.ChangedUpTo(|p.claims|), p.Edits();
    forall k | 0 <= k < |changed|
      ensures c.updated[k].0 == Before(p, changed)[k]
      ensures c.updated[k].1 == After(p, changed)[k]
    {
      var i, at := changed[k], p.claims[changed[k]].value;
      assert edits[k] == p.EditOf(i);
      assert edits[k].before == p.stored[at].cells && Merged(edits[k], p.wanted.emitted) == p.Final(i);
      assert StoredMaps(p)[at] == ToMap(p.schema.columns, p.stored[at].cells);
      assert FinalMaps(p)[i] == ToMap(p.schema.columns, p.Final(i));
      assert c.updated[k] ==
        (ToMap(p.schema.columns, edits[k].before), ToMap(p.schema.columns, Merged(edits[k], p.wanted.emitted)));
    }
  }

  /** Replaying a keyed reconcile's events over the stored rows gives the rows
      it ended with. */
  lemma {:induction false} KeyedEventsReplay(p: Plan, keyed: bool)
    requires p.Valid()
    ensures var c := ChangesOf(p, keyed);
      Replay(multiset(StoredMaps(p)), DiffKeyed(c.removed, c.updated, c.added)) == Some(multiset(FinalMaps(p)))
  {
    var c, changed := ChangesOf(p, keyed), p.ChangedUpTo(|p.claims|);
    var before, after := Before(p, changed), After(p, changed);
    var claimed, kept := Picked(StoredMaps(p), ClaimedUpTo(p, |p.claims|)), Kept(p, |p.claims|, true);
    KeyedEvents(p, keyed);
    StoredSplits(p, StoredMaps(p));
    UnchangedRowsStay(p);
    ChangesSwap(p, |p.claims|);
    RowsArePicked(p, |p.claims|);
    FinalSplits(p, |p.claims|);
    assert FinalMaps(p)[..|p.claims|] == FinalMaps(p);
    ReplayBags(multiset(c.removed), multiset(claimed), multiset(before), multiset(after), multiset(kept),
      multiset(c.added));
    ReplayEvents(multiset(StoredMaps(p)), c.removed, before, after, c.added);
  }

  lemma {:induction false} ReplayBags<R(!new)>(gone: multiset<R>, claimed: multiset<R>, before: multiset<R>,
      after: multiset<R>,
                            kept: multiset<R>, come: multiset<R>)
    requires Swaps(claimed, before, after, kept)
    ensures gone + before <= gone + claimed
    ensures gone + claimed - gone - before + after + come == kept + come
  {
    SwapsTurn(claimed, before, after, kept);
    assert gone + claimed - gone == claimed;
  }

  /**
   Without a key nothing is updated, and the unordered diff of what left and
   what came does the same.
   */
  lemma {:induction false} UnorderedEventsReplay(p: Plan, events: seq<RowEvent>)
    requires p.Valid() && p.ChangedUpTo(|p.claims|) == []
    requires var c := ChangesOf(p, false); Replay(multiset(c.removed), events) == Some(multiset(c.added))
    ensures Replay(multiset(StoredMaps(p)), events) == Some(multiset(FinalMaps(p)))
  {
    var c, kept := ChangesOf(p, false), Kept(p, |p.claims|, true);
    UnkeyedSplits(p);
    ReplayFrames(multiset(c.removed), multiset(kept), events);
    SumCommutes(multiset(c.added), multiset(kept));
  }

  /** Without a key the matched rows are on both sides as they were. */
  lemma {:induction false} UnkeyedSplits(p: Plan)
    requires p.Valid() && p.ChangedUpTo(|p.claims|) == []
    ensures var c, kept := ChangesOf(p, false), Kept(p, |p.claims|, true);
      && BagsAdd(c.removed, kept, StoredMaps(p))
      && BagsAdd(kept, c.added, FinalMaps(p))
  {
    KeyedEvents(p, false);
    ClaimedAreKept(p);
    StoredSplits(p, StoredMaps(p));
    FinalSplits(p, |p.claims|);
    assert FinalMaps(p)[..|p.claims|] == FinalMaps(p);
  }

  /** No events that replay one bag to the other are fewer. */
  ghost predicate Fewest(was: multiset<Row>, will: multiset<Row>, events: seq<RowEvent>) {
    forall others | Replay(was, others) == Some(will) :: |events| <= |others|
  }

  /** What stays on both sides makes no event needed: the fewest between what left
      and what came are the fewest between the whole sides. */
  lemma {:induction false} UnorderedAreFewest(p: Plan, events: seq<RowEvent>)
    requires p.Valid() && p.ChangedUpTo(|p.claims|) == []
    requires var c := ChangesOf(p, false);
      |events| == Max(|multiset(c.removed) - multiset(c.added)|, |multiset(c.added) - multiset(c.removed)|)
    ensures Fewest(multiset(StoredMaps(p)), multiset(FinalMaps(p)), events)
  {
    var c, kept := ChangesOf(p, false), Kept(p, |p.claims|, true);
    var was, will := multiset(StoredMaps(p)), multiset(FinalMaps(p));
    UnkeyedSplits(p);
    StayingCancels(was, will, multiset(c.removed), multiset(c.added), multiset(kept));
    forall others | Replay(was, others) == Some(will) ensures |events| <= |others| {
      NoFewerEvents(was, will, others);
    }
  }

  lemma {:induction false} StayingCancels<R>(was: multiset<R>, will: multiset<R>, gone: multiset<R>, come: multiset<R>,
      kept: multiset<R>)
    requires was == gone + kept && will == kept + come
    ensures was - will == gone - come && will - was == come - gone
  {
  }

  lemma {:induction false} SumCommutes<R>(a: multiset<R>, b: multiset<R>)
    ensures a + b == b + a
  {
  }

  lemma {:induction false} ClaimedAreKept(p: Plan)
    requires p.Valid() && p.ChangedUpTo(|p.claims|) == []
    ensures multiset(Picked(StoredMaps(p), ClaimedUpTo(p, |p.claims|))) == multiset(Kept(p, |p.claims|, true))
  {
    var none: seq<Row> := [];
    UnchangedRowsStay(p);
    ChangesSwap(p, |p.claims|);
    RowsArePicked(p, |p.claims|);
    assert Before(p, []) == none && After(p, []) == none;
    SwapsTurn(multiset(Picked(StoredMaps(p), ClaimedUpTo(p, |p.claims|))), multiset{}, multiset{},
      multiset(Kept(p, |p.claims|, true)));
  }

  lemma {:induction false} NothingChanges(p: Plan, n: nat)
    requires p.Shaped() && n <= |p.claims|
    requires forall i | 0 <= i < |p.claims| :: !p.Changes(i)
    ensures p.ChangedUpTo(n) == []
  {
    if n > 0 {
      NothingChanges(p, n - 1);
    }
  }

  /** Rows matched whole never change. */
  lemma {:induction false} MatchedWholeNeverChanges(s: Schema, t: Rows, stored: seq<Held>, rows: Shaped)
    requires ValidRows(s, t) && ReadFrom(stored, t) && ValidShape(s, rows)
    requires PlanOf(s, t, stored, rows, None).Valid()
    ensures var p := PlanOf(s, t, stored, rows, None); p.ChangedUpTo(|p.claims|) == []
  {
    var p := PlanOf(s, t, stored, rows, None);
    var on := Compared(rows.emitted);
    var held, wanted := Keys(CellsOf(stored), on), Keys(p.wanted.cells, on);
    forall i | 0 <= i < |p.claims| ensures !p.Changes(i) {
      assert p.claims[i] == Claims.ClaimOf(held, wanted, i);
      if p.claims[i].Some? {
        assert held[p.claims[i].value] == wanted[i];
      }
    }
    NothingChanges(p, |p.claims|);
  }

  /** So rows matched whole are made equal the wanted ones whenever the end
      state repeats no key. */
  lemma {:induction false} MatchedWholeIsReachable(s: Schema, t: Rows, stored: seq<Held>, rows: Shaped)
    requires ValidRows(s, t) && ReadFrom(stored, t) && ValidShape(s, rows)
    ensures var p := PlanOf(s, t, stored, rows, None);
      p.Valid() && AllFit(s, p.End()) && (Reachable(p) <==> Distinct(s, p.End()))
  {
    PlanIsValid(s, t, stored, rows, None);
    var p := PlanOf(s, t, stored, rows, None);
    MatchedWholeNeverChanges(s, t, stored, rows);
    EndFits(p);
    EditsAreValid(p);
    assert p.Edits() == [];
  }
}
