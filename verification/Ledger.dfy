/**
 Row ownership (db.rs): `_dirsql_internal_rows` records rows one by one, each
 under its file and index, and `_dirsql_internal_ranges` records batches as
 rowid spans. Together they are a second copy of which rowids are live, and must
 stay an exact partition of them.
 */
module Ledger {
  import opened UserTable

  type File = string

  datatype Mapping = Mapping(file: File, index: nat, rowid: nat)

  datatype Span = Span(file: File, first: nat, last: nat)

  datatype Ledger = Ledger(mapping: seq<Mapping>, ranges: seq<Span>)

  predicate Covers(r: Span, id: nat) { r.first <= id <= r.last }

  predicate Maps(mapping: seq<Mapping>, file: File, id: nat) {
    exists m | m in mapping :: m.file == file && m.rowid == id
  }

  predicate Spans(ranges: seq<Span>, file: File, id: nat) {
    exists r | r in ranges :: r.file == file && Covers(r, id)
  }

  predicate Owns(l: Ledger, file: File, id: nat) { Maps(l.mapping, file, id) || Spans(l.ranges, file, id) }

  function OwnedBy(ids: set<nat>, l: Ledger, file: File): set<nat> { set id | id in ids && Owns(l, file, id) }

  /**
   The ledger is exact for the live rowids: every mapped row is live and mapped
   once, every range has live endpoints, ranges neither overlap nor cover a
   mapped row, and every live row is recorded.
   */
  ghost predicate Exact(ids: set<nat>, l: Ledger) {
    && MappedLive(ids, l.mapping) && MappedOnce(l.mapping)
    && SpansLive(ids, l.ranges) && Apart(l.ranges)
    && NoneMapped(l.mapping, l.ranges)
    && AllRecorded(ids, l)
  }

  ghost predicate MappedLive(ids: set<nat>, mapping: seq<Mapping>) { forall m | m in mapping :: m.rowid in ids }

  ghost predicate MappedOnce(ms: seq<Mapping>) { forall i, j :: OtherRow(ms, i, j) }

  /** Mappings `i` and `j` are of different rows. */
  predicate OtherRow(ms: seq<Mapping>, i: int, j: int) { 0 <= i < j < |ms| ==> ms[i].rowid != ms[j].rowid }

  ghost predicate SpansLive(ids: set<nat>, ranges: seq<Span>) {
    forall r | r in ranges :: r.first <= r.last && r.first in ids && r.last in ids
  }

  ghost predicate Apart(ranges: seq<Span>) { forall i, j :: EndsBefore(ranges, i, j) }

  /** Range `i` ends before range `j` begins. */
  predicate EndsBefore(ranges: seq<Span>, i: int, j: int) { 0 <= i < j < |ranges| ==> ranges[i].last < ranges[j].first }

  ghost predicate NoneMapped(mapping: seq<Mapping>, ranges: seq<Span>) {
    forall m, r :: Clear(mapping, ranges, m, r)
  }

  /** Range `r` does not cover mapped row `m`, if they are recorded. */
  predicate Clear(mapping: seq<Mapping>, ranges: seq<Span>, m: Mapping, r: Span) {
    m in mapping && r in ranges ==> !Covers(r, m.rowid)
  }

  ghost predicate AllRecorded(ids: set<nat>, l: Ledger) { forall id | id in ids :: Recorded(l, id) }

  ghost predicate Recorded(l: Ledger, id: nat) { exists file :: Owns(l, file, id) }

  /** One more mapping is of another row exactly when its row is not mapped yet. */
  lemma {:induction false} OnceMore(ms: seq<Mapping>, m: Mapping)
    ensures MappedOnce(ms + [m]) <==> MappedOnce(ms) && forall n | n in ms :: n.rowid != m.rowid
  {
    var all := ms + [m];
    if MappedOnce(all) {
      forall i, j ensures OtherRow(ms, i, j) {
        assert OtherRow(all, i, j);
      }
      forall i | 0 <= i < |ms| ensures ms[i].rowid != m.rowid {
        assert OtherRow(all, i, |ms|);
      }
    }
    if MappedOnce(ms) && forall n | n in ms :: n.rowid != m.rowid {
      forall i, j ensures OtherRow(all, i, j) {
        assert OtherRow(ms, i, j);
        assert 0 <= i < |ms| ==> ms[i] in ms;
      }
    }
  }

  /** One more range lies apart exactly when it begins past the others' ends. */
  lemma {:induction false} ApartMore(ranges: seq<Span>, r: Span)
    ensures Apart(ranges + [r]) <==> Apart(ranges) && forall s | s in ranges :: s.last < r.first
  {
    var all := ranges + [r];
    if Apart(all) {
      forall i, j ensures EndsBefore(ranges, i, j) {
        assert EndsBefore(all, i, j);
      }
      forall i | 0 <= i < |ranges| ensures ranges[i].last < r.first {
        assert EndsBefore(all, i, |ranges|);
      }
    }
    if Apart(ranges) && forall s | s in ranges :: s.last < r.first {
      forall i, j ensures EndsBefore(all, i, j) {
        assert EndsBefore(ranges, i, j);
        assert 0 <= i < |ranges| ==> ranges[i] in ranges;
      }
    }
  }

  lemma {:induction false} MappedIsClear(l: Ledger, m: Mapping)
    requires NoneMapped(l.mapping, l.ranges) && m in l.mapping
    ensures forall r | r in l.ranges :: !Covers(r, m.rowid)
  {
    forall r | r in l.ranges ensures !Covers(r, m.rowid) {
      assert Clear(l.mapping, l.ranges, m, r);
    }
  }

  /** What is clear stays so among less. */
  lemma {:induction false} FewerClear(l: Ledger, mapping: seq<Mapping>, ranges: seq<Span>)
    requires NoneMapped(l.mapping, l.ranges)
    requires (forall m | m in mapping :: m in l.mapping) && forall r | r in ranges :: r in l.ranges
    ensures NoneMapped(mapping, ranges)
  {
    forall m, r ensures Clear(mapping, ranges, m, r) {
      assert Clear(l.mapping, l.ranges, m, r);
    }
  }

  /** Exactness: each live row has one owner and no more. */
  lemma {:induction false} OneOwner(ids: set<nat>, l: Ledger, a: File, b: File, id: nat)
    requires Exact(ids, l) && Owns(l, a, id) && Owns(l, b, id)
    ensures a == b
  {
    if Maps(l.mapping, a, id) {
      var m :| m in l.mapping && m.file == a && m.rowid == id;
      MappedIsClear(l, m);
      var m' :| m' in l.mapping && m'.file == b && m'.rowid == id;
      SameMapping(l, m, m');
    } else {
      var r :| r in l.ranges && r.file == a && Covers(r, id);
      forall m | m in l.mapping ensures !Covers(r, m.rowid) {
        MappedIsClear(l, m);
      }
      var r' :| r' in l.ranges && r'.file == b && Covers(r', id);
      SameSpan(l, r, r', id);
    }
  }

  lemma {:induction false} SameMapping(l: Ledger, m: Mapping, m': Mapping)
    requires MappedOnce(l.mapping)
    requires m in l.mapping && m' in l.mapping && m.rowid == m'.rowid
    ensures m == m'
  {
    var i :| 0 <= i < |l.mapping| && l.mapping[i] == m;
    var j :| 0 <= j < |l.mapping| && l.mapping[j] == m';
    assert OtherRow(l.mapping, i, j) && OtherRow(l.mapping, j, i);
  }

  lemma {:induction false} SameSpan(l: Ledger, r: Span, r': Span, id: nat)
    requires Apart(l.ranges)
    requires r in l.ranges && r' in l.ranges && Covers(r, id) && Covers(r', id)
    ensures r == r'
  {
    var i :| 0 <= i < |l.ranges| && l.ranges[i] == r;
    var j :| 0 <= j < |l.ranges| && l.ranges[j] == r';
    assert EndsBefore(l.ranges, i, j) && EndsBefore(l.ranges, j, i);
  }

  /** Going from one table and ledger to another keeps every row of the other
      owners, as it is and theirs. */
  ghost predicate OnlyTouches(t: Rows, l: Ledger, t': Rows, l': Ledger, file: File) {
    && (forall other | other != file :: OwnedBy(t'.Keys, l', other) == OwnedBy(t.Keys, l, other))
    && (forall id | id in t && id !in OwnedBy(t.Keys, l, file) :: id in t' && t'[id] == t[id])
  }

  /** The owners partition the live rows. */
  lemma {:induction false} OwnersPartition(ids: set<nat>, l: Ledger, a: File, b: File)
    requires Exact(ids, l)
    ensures a != b ==> OwnedBy(ids, l, a) !! OwnedBy(ids, l, b)
    ensures forall id | id in ids :: exists file :: id in OwnedBy(ids, l, file)
  {
    forall id | id in OwnedBy(ids, l, a) && id in OwnedBy(ids, l, b) ensures a == b {
      OneOwner(ids, l, a, b, id);
    }
    forall id | id in ids ensures exists file :: id in OwnedBy(ids, l, file) {
      var file :| Owns(l, file, id);
      assert id in OwnedBy(ids, l, file);
    }
  }

  // ----------------------------------------------------------------- queries

  /** The mappings of one file, in the order they were made. */
  function Of(mapping: seq<Mapping>, file: File): (r: seq<Mapping>)
    ensures forall m :: m in r <==> m in mapping && m.file == file
  {
    if mapping == [] then []
    else
      Of(mapping[..|mapping| - 1], file) +
      if mapping[|mapping| - 1].file == file then [mapping[|mapping| - 1]] else []
  }

  /** The mappings DELETE leaves. */
  function Except(mapping: seq<Mapping>, file: File): (r: seq<Mapping>)
    ensures forall m :: m in r <==> m in mapping && m.file != file
  {
    if mapping == [] then []
    else
      Except(mapping[..|mapping| - 1], file) +
      if mapping[|mapping| - 1].file != file then [mapping[|mapping| - 1]] else []
  }

  function SpansOf(ranges: seq<Span>, file: File): (r: seq<Span>)
    ensures forall s :: s in r <==> s in ranges && s.file == file
  {
    if ranges == [] then []
    else
      SpansOf(ranges[..|ranges| - 1], file) +
      if ranges[|ranges| - 1].file == file then [ranges[|ranges| - 1]] else []
  }

  function SpansExcept(ranges: seq<Span>, file: File): (r: seq<Span>)
    ensures forall s :: s in r <==> s in ranges && s.file != file
  {
    if ranges == [] then []
    else
      SpansExcept(ranges[..|ranges| - 1], file) +
      if ranges[|ranges| - 1].file != file then [ranges[|ranges| - 1]] else []
  }

  /** ORDER BY row_index: place one more mapping among sorted ones. */
  function Place(m: Mapping, sorted: seq<Mapping>): (r: seq<Mapping>)
    ensures multiset(r) == multiset(sorted) + multiset{m}
  {
    if sorted == [] || sorted[|sorted| - 1].index <= m.index then sorted + [m]
    else
      var init, last := sorted[..|sorted| - 1], sorted[|sorted| - 1];
      assert sorted == init + [last];
      Place(m, init) + [last]
  }

  function ByIndex(ms: seq<Mapping>): (r: seq<Mapping>)
    ensures multiset(r) == multiset(ms)
  {
    if ms == [] then []
    else
      assert ms == ms[..|ms| - 1] + [ms[|ms| - 1]];
      Place(ms[|ms| - 1], ByIndex(ms[..|ms| - 1]))
  }

  ghost predicate IndexOrdered(ms: seq<Mapping>) { forall i, j :: InOrder(ms, i, j) }

  predicate InOrder(ms: seq<Mapping>, i: int, j: int) { 0 <= i < j < |ms| ==> ms[i].index <= ms[j].index }

  lemma {:induction false} OrderedMore(ms: seq<Mapping>, m: Mapping)
    ensures IndexOrdered(ms + [m]) <==> IndexOrdered(ms) && forall n | n in ms :: n.index <= m.index
  {
    var all := ms + [m];
    if IndexOrdered(all) {
      forall i, j ensures InOrder(ms, i, j) {
        assert InOrder(all, i, j);
      }
      forall i | 0 <= i < |ms| ensures ms[i].index <= m.index {
        assert InOrder(all, i, |ms|);
      }
    }
    if IndexOrdered(ms) && forall n | n in ms :: n.index <= m.index {
      forall i, j ensures InOrder(all, i, j) {
        assert InOrder(ms, i, j);
        assert 0 <= i < |ms| ==> ms[i] in ms;
      }
    }
  }

  lemma {:induction false} PlacedLast(m: Mapping, sorted: seq<Mapping>)
    requires sorted == [] || sorted[|sorted| - 1].index <= m.index
    ensures Place(m, sorted) == sorted + [m]
  {
  }

  lemma {:induction false} ByIndexKeepsOrdered(ms: seq<Mapping>)
    requires IndexOrdered(ms)
    ensures ByIndex(ms) == ms
  {
    if ms != [] {
      var init, last := ms[..|ms| - 1], ms[|ms| - 1];
      assert ms == init + [last];
      OrderedMore(init, last);
      ByIndexKeepsOrdered(init);
      assert init != [] ==> init[|init| - 1] in init;
      PlacedLast(last, init);
    }
  }

  /** Sorting sorts. */
  lemma {:induction false} ByIndexOrders(ms: seq<Mapping>)
    ensures IndexOrdered(ByIndex(ms))
  {
    if ms != [] {
      ByIndexOrders(ms[..|ms| - 1]);
      PlaceOrders(ms[|ms| - 1], ByIndex(ms[..|ms| - 1]));
    }
  }

  lemma {:induction false} PlaceOrders(m: Mapping, sorted: seq<Mapping>)
    requires IndexOrdered(sorted)
    ensures IndexOrdered(Place(m, sorted))
  {
    if sorted == [] {
      OrderedMore([], m);
      assert [] + [m] == sorted + [m];
    } else {
      var init, last := sorted[..|sorted| - 1], sorted[|sorted| - 1];
      assert sorted == init + [last];
      OrderedMore(init, last);
      if last.index <= m.index {
        OrderedMore(sorted, m);
      } else {
        PlaceOrders(m, init);
        forall n | n in Place(m, init) ensures n.index <= last.index {
          assert n in multiset(Place(m, init));
          assert n == m || n in init;
        }
        OrderedMore(Place(m, init), last);
      }
    }
  }

  function Rowids(ms: seq<Mapping>): (r: seq<nat>)
    ensures |r| == |ms|
  {
    seq(|ms|, i requires 0 <= i < |ms| => ms[i].rowid)
  }

  /** The live rowids from `lo` to `hi`, in rowid order. */
  function Between(ids: set<nat>, lo: nat, hi: nat): (r: seq<nat>)
    ensures forall id :: id in r <==> id in ids && lo <= id <= hi
    decreases hi + 1 - lo
  {
    if lo > hi then [] else (if lo in ids then [lo] else []) + Between(ids, lo + 1, hi)
  }

  predicate CoveredBy(spans: seq<Span>, id: nat) { exists s | s in spans :: Covers(s, id) }

  function SpanIds(ids: set<nat>, spans: seq<Span>): (r: seq<nat>)
    ensures forall id :: id in r <==> id in ids && CoveredBy(spans, id)
  {
    if spans == [] then []
    else
      assert forall id: nat :: CoveredBy(spans, id) <==>
        CoveredBy(spans[..|spans| - 1], id) || Covers(spans[|spans| - 1], id) by {
        assert spans == spans[..|spans| - 1] + [spans[|spans| - 1]];
      }
      SpanIds(ids, spans[..|spans| - 1]) + Between(ids, spans[|spans| - 1].first, spans[|spans| - 1].last)
  }

  /** The rowids of a file's rows as they are read back: the mapped ones by
      index, then the ranges' in rowid order. The join drops a dead mapping. */
  function Read(ids: set<nat>, l: Ledger, file: File): seq<nat> {
    Live(ids, Rowids(ByIndex(Of(l.mapping, file)))) + SpanIds(ids, SpansOf(l.ranges, file))
  }

  function Live(ids: set<nat>, rowids: seq<nat>): (r: seq<nat>)
    ensures forall id :: id in r <==> id in rowids && id in ids
    ensures (forall id | id in rowids :: id in ids) ==> r == rowids
  {
    if rowids == [] then []
    else
      var n := |rowids| - 1;
      assert rowids == rowids[..n] + [rowids[n]];
      Live(ids, rowids[..n]) + if rowids[n] in ids then [rowids[n]] else []
  }

  // ------------------------------------------------------- reading is owning

  ghost predicate Increasing(ids: seq<nat>) { forall i, j :: Rises(ids, i, j) }

  predicate Rises(ids: seq<nat>, i: int, j: int) { 0 <= i < j < |ids| ==> ids[i] < ids[j] }

  ghost predicate NoRepeat(ids: seq<nat>) { forall i, j :: Unlike(ids, i, j) }

  predicate Unlike(ids: seq<nat>, i: int, j: int) { 0 <= i < j < |ids| ==> ids[i] != ids[j] }

  lemma {:induction false} IncreasingIsUnlike(ids: seq<nat>)
    requires Increasing(ids)
    ensures NoRepeat(ids)
  {
    forall i, j ensures Unlike(ids, i, j) {
      assert Rises(ids, i, j);
    }
  }

  lemma {:induction false} BothIncrease(a: seq<nat>, b: seq<nat>)
    requires Increasing(a) && Increasing(b) && forall x, y | x in a && y in b :: x < y
    ensures Increasing(a + b)
  {
    forall i, j ensures Rises(a + b, i, j) {
      assert Rises(a, i, j) && Rises(b, i - |a|, j - |a|);
      assert 0 <= i < |a| ==> a[i] in a;
      assert |a| <= j < |a + b| ==> b[j - |a|] in b;
    }
  }

  lemma {:induction false} BetweenIncreases(ids: set<nat>, lo: nat, hi: nat)
    ensures Increasing(Between(ids, lo, hi))
    decreases hi + 1 - lo
  {
    if lo <= hi {
      BetweenIncreases(ids, lo + 1, hi);
      BothIncrease(if lo in ids then [lo] else [], Between(ids, lo + 1, hi));
    }
  }

  lemma {:induction false} CoveredBefore(spans: seq<Span>, id: nat)
    requires spans != [] && Apart(spans) && CoveredBy(spans[..|spans| - 1], id)
    ensures id < spans[|spans| - 1].first
  {
    var init, last := spans[..|spans| - 1], spans[|spans| - 1];
    assert spans == init + [last];
    ApartMore(init, last);
    var s :| s in init && Covers(s, id);
  }

  lemma {:induction false} SpanIdsIncrease(ids: set<nat>, spans: seq<Span>)
    requires Apart(spans) && forall s | s in spans :: s.first <= s.last
    ensures Increasing(SpanIds(ids, spans))
  {
    if spans != [] {
      var init, last := spans[..|spans| - 1], spans[|spans| - 1];
      assert spans == init + [last];
      ApartMore(init, last);
      SpanIdsIncrease(ids, init);
      BetweenIncreases(ids, last.first, last.last);
      var a, b := SpanIds(ids, init), Between(ids, last.first, last.last);
      forall x, y | x in a && y in b ensures x < y {
        CoveredBefore(spans, x);
      }
      BothIncrease(a, b);
    }
  }

  lemma {:induction false} SpansOfApart(ranges: seq<Span>, file: File)
    requires Apart(ranges)
    ensures Apart(SpansOf(ranges, file)) && Apart(SpansExcept(ranges, file))
  {
    if ranges != [] {
      var init, last := ranges[..|ranges| - 1], ranges[|ranges| - 1];
      assert ranges == init + [last];
      ApartMore(init, last);
      SpansOfApart(init, file);
      ApartMore(SpansOf(init, file), last);
      ApartMore(SpansExcept(init, file), last);
      assert SpansOf(init, file) + [] == SpansOf(init, file) && SpansExcept(init, file) + [] == SpansExcept(init, file);
    }
  }

  lemma {:induction false} OfMappedOnce(ms: seq<Mapping>, file: File)
    requires MappedOnce(ms)
    ensures MappedOnce(Of(ms, file)) && MappedOnce(Except(ms, file))
  {
    if ms != [] {
      var init, last := ms[..|ms| - 1], ms[|ms| - 1];
      assert ms == init + [last];
      OnceMore(init, last);
      OfMappedOnce(init, file);
      OnceMore(Of(init, file), last);
      OnceMore(Except(init, file), last);
      assert Of(init, file) + [] == Of(init, file) && Except(init, file) + [] == Except(init, file);
    }
  }

  lemma {:induction false} PlaceKeepsMappedOnce(m: Mapping, sorted: seq<Mapping>)
    requires MappedOnce(sorted) && forall n | n in sorted :: n.rowid != m.rowid
    ensures MappedOnce(Place(m, sorted))
  {
    if sorted == [] || sorted[|sorted| - 1].index <= m.index {
      OnceMore(sorted, m);
    } else {
      var init, last := sorted[..|sorted| - 1], sorted[|sorted| - 1];
      assert sorted == init + [last];
      OnceMore(init, last);
      PlaceKeepsMappedOnce(m, init);
      forall n | n in Place(m, init) ensures n.rowid != last.rowid {
        assert n in multiset(Place(m, init));
        assert n == m || n in init;
      }
      OnceMore(Place(m, init), last);
    }
  }

  lemma {:induction false} ByIndexKeepsMappedOnce(ms: seq<Mapping>)
    requires MappedOnce(ms)
    ensures MappedOnce(ByIndex(ms))
  {
    if ms != [] {
      var init, last := ms[..|ms| - 1], ms[|ms| - 1];
      assert ms == init + [last];
      OnceMore(init, last);
      ByIndexKeepsMappedOnce(init);
      forall n | n in ByIndex(init) ensures n.rowid != last.rowid {
        assert n in multiset(ByIndex(init)) && n in init;
      }
      PlaceKeepsMappedOnce(last, ByIndex(init));
    }
  }

  lemma {:induction false} ByIndexMembers(ms: seq<Mapping>, m: Mapping)
    ensures m in ByIndex(ms) <==> m in ms
  {
    assert m in multiset(ByIndex(ms)) <==> m in multiset(ms);
  }

  lemma {:induction false} MappedRowids(mapping: seq<Mapping>, file: File, id: nat)
    ensures id in Rowids(ByIndex(Of(mapping, file))) <==> Maps(mapping, file, id)
  {
    var ms := ByIndex(Of(mapping, file));
    RowidsMembers(ms, id);
    if Maps(mapping, file, id) {
      var m :| m in mapping && m.file == file && m.rowid == id;
      ByIndexMembers(Of(mapping, file), m);
    }
    if m :| m in ms && m.rowid == id {
      ByIndexMembers(Of(mapping, file), m);
    }
  }

  lemma {:induction false} SpannedIds(ranges: seq<Span>, file: File, id: nat)
    ensures CoveredBy(SpansOf(ranges, file), id) <==> Spans(ranges, file, id)
  {
    if CoveredBy(SpansOf(ranges, file), id) {
      var s :| s in SpansOf(ranges, file) && Covers(s, id);
      assert s in ranges && s.file == file;
    }
    if Spans(ranges, file, id) {
      var s :| s in ranges && s.file == file && Covers(s, id);
      assert s in SpansOf(ranges, file);
    }
  }

  lemma {:induction false} MappedNeverSpanned(ids: set<nat>, l: Ledger, a: File, b: File, id: nat)
    requires Exact(ids, l) && Maps(l.mapping, a, id)
    ensures !Spans(l.ranges, b, id) && id in ids
  {
    var m :| m in l.mapping && m.file == a && m.rowid == id;
    MappedIsClear(l, m);
  }

  lemma {:induction false} MappedReads(ids: set<nat>, l: Ledger, file: File)
    requires Exact(ids, l)
    ensures Live(ids, Rowids(ByIndex(Of(l.mapping, file)))) == Rowids(ByIndex(Of(l.mapping, file)))
    ensures NoRepeat(Rowids(ByIndex(Of(l.mapping, file))))
  {
    var ms := ByIndex(Of(l.mapping, file));
    forall id | id in Rowids(ms) ensures id in ids {
      MappedRowids(l.mapping, file, id);
      MappedNeverSpanned(ids, l, file, file, id);
    }
    OfMappedOnce(l.mapping, file);
    ByIndexKeepsMappedOnce(Of(l.mapping, file));
    forall i, j ensures Unlike(Rowids(ms), i, j) {
      assert OtherRow(ms, i, j);
    }
  }

  lemma {:induction false} SpannedReads(ids: set<nat>, l: Ledger, file: File)
    requires Exact(ids, l)
    ensures NoRepeat(SpanIds(ids, SpansOf(l.ranges, file)))
    ensures forall id :: id in SpanIds(ids, SpansOf(l.ranges, file)) <==> id in ids && Spans(l.ranges, file, id)
  {
    SpansOfApart(l.ranges, file);
    SpanIdsIncrease(ids, SpansOf(l.ranges, file));
    IncreasingIsUnlike(SpanIds(ids, SpansOf(l.ranges, file)));
    forall id: nat ensures CoveredBy(SpansOf(l.ranges, file), id) <==> Spans(l.ranges, file, id) {
      SpannedIds(l.ranges, file, id);
    }
  }

  /** Reading a file back yields exactly the rows it owns, each once. */
  lemma {:induction false} ReadIsOwned(ids: set<nat>, l: Ledger, file: File)
    requires Exact(ids, l)
    ensures NoRepeat(Read(ids, l, file))
    ensures forall id :: id in Read(ids, l, file) <==> id in OwnedBy(ids, l, file)
  {
    var mapped, spanned := Rowids(ByIndex(Of(l.mapping, file))), SpanIds(ids, SpansOf(l.ranges, file));
    MappedReads(ids, l, file);
    SpannedReads(ids, l, file);
    forall id: nat
      ensures id in mapped <==> Maps(l.mapping, file, id)
      ensures id in mapped ==> id in ids && id !in spanned
    {
      MappedRowids(l.mapping, file, id);
      if Maps(l.mapping, file, id) {
        MappedNeverSpanned(ids, l, file, file, id);
      }
    }
    NoRepeatConcat(mapped, spanned);
  }

  /** Row `a` is read back before row `b`: mapped ones by index, then ranged
      ones by rowid. */
  ghost predicate ReadsBefore(l: Ledger, file: File, a: nat, b: nat) {
    || (Maps(l.mapping, file, a) && Spans(l.ranges, file, b))
    || (Spans(l.ranges, file, a) && Spans(l.ranges, file, b) && a < b)
    || exists m, n :: MappedBefore(l.mapping, file, m, n) && m.rowid == a && n.rowid == b
  }

  predicate MappedBefore(mapping: seq<Mapping>, file: File, m: Mapping, n: Mapping) {
    m in mapping && n in mapping && m.file == file == n.file && m.index <= n.index
  }

  ghost predicate OrderedReading(l: Ledger, file: File, ids: seq<nat>) { forall i, j :: ReadsAt(l, file, ids, i, j) }

  ghost predicate ReadsAt(l: Ledger, file: File, ids: seq<nat>, i: int, j: int) {
    0 <= i < j < |ids| ==> ReadsBefore(l, file, ids[i], ids[j])
  }

  lemma {:induction false} OrderedConcat(l: Ledger, file: File, mapped: seq<nat>, spanned: seq<nat>)
    requires OrderedReading(l, file, mapped) && OrderedReading(l, file, spanned)
    requires forall id | id in mapped :: Maps(l.mapping, file, id)
    requires forall id | id in spanned :: Spans(l.ranges, file, id)
    ensures OrderedReading(l, file, mapped + spanned)
  {
    forall i, j ensures ReadsAt(l, file, mapped + spanned, i, j) {
      assert ReadsAt(l, file, mapped, i, j) && ReadsAt(l, file, spanned, i - |mapped|, j - |mapped|);
      assert 0 <= i < |mapped| ==> mapped[i] in mapped;
      assert |mapped| <= j < |mapped + spanned| ==> spanned[j - |mapped|] in spanned;
    }
  }

  /** A file's rows are read in order. */
  lemma {:induction false} ReadsInOrder(ids: set<nat>, l: Ledger, file: File)
    requires Exact(ids, l)
    ensures OrderedReading(l, file, Read(ids, l, file))
  {
    var mapped, spanned := Rowids(ByIndex(Of(l.mapping, file))), SpanIds(ids, SpansOf(l.ranges, file));
    MappedReads(ids, l, file);
    SpannedReads(ids, l, file);
    forall i, j ensures ReadsAt(l, file, mapped, i, j) && ReadsAt(l, file, spanned, i, j) {
      if 0 <= i < j < |mapped| {
        MappedInOrder(l, file, i, j);
      }
      if 0 <= i < j < |spanned| {
        SpannedInOrder(ids, l, file, i, j);
      }
    }
    forall id | id in mapped ensures Maps(l.mapping, file, id) {
      MappedRowids(l.mapping, file, id);
    }
    OrderedConcat(l, file, mapped, spanned);
  }

  lemma {:induction false} MappedInOrder(l: Ledger, file: File, i: nat, j: nat)
    requires i < j < |ByIndex(Of(l.mapping, file))|
    ensures var ids := Rowids(ByIndex(Of(l.mapping, file))); ReadsBefore(l, file, ids[i], ids[j])
  {
    var of := Of(l.mapping, file);
    var ms := ByIndex(of);
    ByIndexOrders(of);
    ByIndexMembers(of, ms[i]);
    ByIndexMembers(of, ms[j]);
    assert InOrder(ms, i, j) && MappedBefore(l.mapping, file, ms[i], ms[j]);
  }

  lemma {:induction false} SpannedInOrder(ids: set<nat>, l: Ledger, file: File, i: nat, j: nat)
    requires Exact(ids, l) && i < j < |SpanIds(ids, SpansOf(l.ranges, file))|
    ensures var spanned := SpanIds(ids, SpansOf(l.ranges, file)); ReadsBefore(l, file, spanned[i], spanned[j])
  {
    var spanned := SpanIds(ids, SpansOf(l.ranges, file));
    SpannedReads(ids, l, file);
    SpansOfApart(l.ranges, file);
    SpanIdsIncrease(ids, SpansOf(l.ranges, file));
    assert Rises(spanned, i, j) && spanned[i] in spanned && spanned[j] in spanned;
  }

  lemma {:induction false} NoRepeatConcat(a: seq<nat>, b: seq<nat>)
    requires NoRepeat(a) && NoRepeat(b) && forall id | id in a :: id !in b
    ensures NoRepeat(a + b)
  {
    forall i, j ensures Unlike(a + b, i, j) {
      assert Unlike(a, i, j) && Unlike(b, i - |a|, j - |a|);
      assert 0 <= i < |a| ==> a[i] in a;
      assert |a| <= j < |a + b| ==> b[j - |a|] in b;
    }
  }

  lemma {:induction false} RowidsMembers(ms: seq<Mapping>, id: nat)
    ensures id in Rowids(ms) <==> exists m | m in ms :: m.rowid == id
  {
    if id in Rowids(ms) {
      var k :| 0 <= k < |ms| && Rowids(ms)[k] == id;
      assert ms[k] in ms;
    }
    if m :| m in ms && m.rowid == id {
      var k :| 0 <= k < |ms| && ms[k] == m;
      assert Rowids(ms)[k] == id;
    }
  }

  // ---------------------------------------------------------------- changes

  /** One more row, recorded under its file and index. */
  function Map(l: Ledger, file: File, index: nat, id: nat): Ledger {
    l.(mapping := l.mapping + [Mapping(file, index, id)])
  }

  /** One more batch, recorded as a range. */
  function Range(l: Ledger, file: File, first: nat, last: nat): Ledger {
    l.(ranges := l.ranges + [Span(file, first, last)])
  }

  /** Nothing recorded under `file` any more. */
  function Drop(l: Ledger, file: File): Ledger {
    Ledger(Except(l.mapping, file), SpansExcept(l.ranges, file))
  }

  function Enumerated(file: File, placed: seq<nat>): (r: seq<Mapping>)
    ensures |r| == |placed|
  {
    seq(|placed|, i requires 0 <= i < |placed| => Mapping(file, i, placed[i]))
  }

  /** The file's rows recorded afresh, each by its index in `placed`. */
  function Own(l: Ledger, file: File, placed: seq<nat>): Ledger {
    var rest := Drop(l, file);
    rest.(mapping := rest.mapping + Enumerated(file, placed))
  }

  /** Every live rowid is at most `top`. */
  predicate Under(ids: set<nat>, top: nat) { forall id | id in ids :: id <= top }

  /** A rowid past every live one is nobody's. */
  lemma {:induction false} UnownedPast(ids: set<nat>, l: Ledger, id: nat, f: File)
    requires Exact(ids, l) && id > 0 && Under(ids, id - 1)
    ensures !Owns(l, f, id)
  {
    assert forall r | r in l.ranges :: r.last in ids;
    assert forall m | m in l.mapping :: m.rowid in ids;
  }

  lemma {:induction false} MapOwns(l: Ledger, file: File, index: nat, id: nat, f: File, x: nat)
    ensures Owns(Map(l, file, index, id), f, x) <==> Owns(l, f, x) || (f == file && x == id)
  {
    var l' := Map(l, file, index, id);
    assert Mapping(file, index, id) in l'.mapping;
    assert forall m :: m in l'.mapping <==> m in l.mapping || m == Mapping(file, index, id);
  }

  lemma {:induction false} MapKeepsExact(ids: set<nat>, l: Ledger, file: File, index: nat, id: nat)
    requires Exact(ids, l) && id > 0 && Under(ids, id - 1)
    ensures Exact(ids + {id}, Map(l, file, index, id))
  {
    var l' := Map(l, file, index, id);
    OnceMore(l.mapping, Mapping(file, index, id));
    forall m, r ensures Clear(l'.mapping, l'.ranges, m, r) {
      assert Clear(l.mapping, l.ranges, m, r);
      assert r in l.ranges ==> r.last in ids;
    }
    forall x | x in ids + {id} ensures Recorded(l', x) {
      if x == id {
        MapOwns(l, file, index, id, file, id);
      } else {
        var f :| Owns(l, f, x);
        MapOwns(l, file, index, id, f, x);
      }
    }
  }

  lemma {:induction false} MapOwnedBy(ids: set<nat>, l: Ledger, file: File, index: nat, id: nat, f: File)
    requires Exact(ids, l) && id > 0 && Under(ids, id - 1)
    ensures OwnedBy(ids + {id}, Map(l, file, index, id), f) == OwnedBy(ids, l, f) + if f == file then {id} else {}
  {
    UnownedPast(ids, l, id, f);
    forall x | x in ids + {id}
      ensures Owns(Map(l, file, index, id), f, x) <==> Owns(l, f, x) || (f == file && x == id) {
      MapOwns(l, file, index, id, f, x);
    }
  }

  /** The same, on the rowids and ledger it ends with. */
  lemma {:induction false} MapSettles(ids: set<nat>, l: Ledger, file: File, index: nat, id: nat, ids': set<nat>,
      l': Ledger)
    requires Exact(ids, l) && id > 0 && Under(ids, id - 1) && ids' == ids + {id} && l' == Map(l, file, index, id)
    ensures Exact(ids', l')
    ensures forall f :: OwnedBy(ids', l', f) == if f == file then OwnedBy(ids, l, f) + {id} else OwnedBy(ids, l, f)
  {
    MapKeepsExact(ids, l, file, index, id);
    forall f ensures OwnedBy(ids', l', f) == if f == file then OwnedBy(ids, l, f) + {id} else OwnedBy(ids, l, f) {
      MapOwnedBy(ids, l, file, index, id, f);
    }
  }

  lemma {:induction false} RangeOwns(l: Ledger, file: File, first: nat, last: nat, f: File, x: nat)
    ensures Owns(Range(l, file, first, last), f, x) <==> Owns(l, f, x) || (f == file && first <= x <= last)
  {
    var l', s := Range(l, file, first, last), Span(file, first, last);
    assert s in l'.ranges && (Covers(s, x) <==> first <= x <= last);
    assert forall r :: r in l'.ranges <==> r in l.ranges || r == s;
  }

  lemma {:induction false} RangeKeepsSpans(ids: set<nat>, l: Ledger, file: File, first: nat, last: nat, added: set<nat>)
    requires Exact(ids, l) && 0 < first <= last && Under(ids, first - 1)
    requires forall id :: id in added <==> first <= id <= last
    ensures SpansLive(ids + added, Range(l, file, first, last).ranges)
    ensures Apart(Range(l, file, first, last).ranges)
    ensures NoneMapped(l.mapping, Range(l, file, first, last).ranges)
  {
    ApartMore(l.ranges, Span(file, first, last));
    var ranges := Range(l, file, first, last).ranges;
    forall m, r ensures Clear(l.mapping, ranges, m, r) {
      assert Clear(l.mapping, l.ranges, m, r);
      assert m in l.mapping ==> m.rowid in ids;
    }
  }

  lemma {:induction false} RangeRecords(ids: set<nat>, l: Ledger, file: File, first: nat, last: nat, added: set<nat>)
    requires AllRecorded(ids, l)
    requires forall id :: id in added <==> first <= id <= last
    ensures AllRecorded(ids + added, Range(l, file, first, last))
  {
    forall x | x in ids + added ensures Recorded(Range(l, file, first, last), x) {
      if x in added {
        RangeOwns(l, file, first, last, file, x);
      } else {
        var f :| Owns(l, f, x);
        RangeOwns(l, file, first, last, f, x);
      }
    }
  }

  lemma {:induction false} RangeKeepsExact(ids: set<nat>, l: Ledger, file: File, first: nat, last: nat,
      added: set<nat>, ids': set<nat>, l': Ledger)
    requires Exact(ids, l) && 0 < first <= last && Under(ids, first - 1)
    requires forall id :: id in added <==> first <= id <= last
    requires ids' == ids + added && l' == Range(l, file, first, last)
    ensures Exact(ids', l')
  {
    RangeKeepsSpans(ids, l, file, first, last, added);
    RangeRecords(ids, l, file, first, last, added);
  }

  lemma {:induction false} RangeOwnedBy(ids: set<nat>, l: Ledger, file: File, first: nat, last: nat, added: set<nat>,
      f: File)
    requires Exact(ids, l) && 0 < first <= last && Under(ids, first - 1)
    requires forall id :: id in added <==> first <= id <= last
    ensures OwnedBy(ids + added, Range(l, file, first, last), f) == OwnedBy(ids, l, f) + if f == file then added else {}
  {
    forall x | x in ids + added
      ensures Owns(Range(l, file, first, last), f, x) <==> Owns(l, f, x) || (f == file && x in added)
      ensures x in added ==> !Owns(l, f, x)
    {
      RangeOwns(l, file, first, last, f, x);
      if x in added {
        UnownedPast(ids, l, x, f);
      }
    }
  }

  lemma {:induction false} DropOwns(l: Ledger, file: File, other: File, id: nat)
    ensures Owns(Drop(l, file), other, id) <==> other != file && Owns(l, other, id)
  {
  }

  /** A row of another owner is live and stays recorded. */
  lemma {:induction false} OthersStay(ids: set<nat>, l: Ledger, file: File, f: File, x: nat)
    requires Exact(ids, l) && f != file && Owns(l, f, x)
    ensures x !in OwnedBy(ids, l, file) && Owns(Drop(l, file), f, x)
  {
    DropOwns(l, file, f, x);
    if Owns(l, file, x) {
      OneOwner(ids, l, f, file, x);
    }
  }

  /** Forgetting a file whose rows are gone leaves the rest exact. */
  lemma {:induction false} DropKeepsExact(ids: set<nat>, l: Ledger, file: File)
    requires Exact(ids, l)
    ensures Exact(ids - OwnedBy(ids, l, file), Drop(l, file))
  {
    var left, l' := ids - OwnedBy(ids, l, file), Drop(l, file);
    OfMappedOnce(l.mapping, file);
    SpansOfApart(l.ranges, file);
    FewerClear(l, l'.mapping, l'.ranges);
    forall m | m in l'.mapping ensures m.rowid in left {
      assert Maps(l.mapping, m.file, m.rowid);
      OthersStay(ids, l, file, m.file, m.rowid);
    }
    forall r | r in l'.ranges ensures r.first in left && r.last in left {
      assert Covers(r, r.first) && Covers(r, r.last);
      OthersStay(ids, l, file, r.file, r.first);
      OthersStay(ids, l, file, r.file, r.last);
    }
    forall x | x in left ensures Recorded(l', x) {
      var f :| Owns(l, f, x);
      OthersStay(ids, l, file, f, x);
    }
  }

  lemma {:induction false} DropOwnedBy(ids: set<nat>, l: Ledger, file: File, f: File)
    requires Exact(ids, l)
    ensures OwnedBy(ids - OwnedBy(ids, l, file), Drop(l, file), f) == if f == file then {} else OwnedBy(ids, l, f)
  {
    forall x | x in ids
      ensures x in OwnedBy(ids - OwnedBy(ids, l, file), Drop(l, file), f) <==> f != file && x in OwnedBy(ids, l, f)
    {
      DropOwns(l, file, f, x);
      if f != file && Owns(l, f, x) {
        OthersStay(ids, l, file, f, x);
      }
    }
  }

  /** `placed` are rows a file may come to own: its own, or past all others'. */
  ghost predicate Placeable(ids: set<nat>, l: Ledger, file: File, placed: seq<nat>) {
    var rest := ids - OwnedBy(ids, l, file);
    NoRepeat(placed) && forall id | id in placed :: id in OwnedBy(ids, l, file) || (id > 0 && Under(rest, id - 1))
  }

  lemma {:induction false} PlacedIsUnclaimed(ids: set<nat>, l: Ledger, file: File, placed: seq<nat>, id: nat, f: File)
    requires Exact(ids, l) && Placeable(ids, l, file, placed) && id in placed
    ensures id !in ids - OwnedBy(ids, l, file) && !Owns(Drop(l, file), f, id)
  {
    var rest := ids - OwnedBy(ids, l, file);
    DropKeepsExact(ids, l, file);
    DropOwns(l, file, f, id);
    if id in OwnedBy(ids, l, file) {
      if Owns(l, f, id) {
        OneOwner(ids, l, file, f, id);
      }
    } else {
      UnownedPast(rest, Drop(l, file), id, f);
    }
  }

  lemma {:induction false} OwnOwns(l: Ledger, file: File, placed: seq<nat>, f: File, x: nat)
    ensures Owns(Own(l, file, placed), f, x) <==> if f == file then x in placed else Owns(l, f, x)
  {
    var mid, l', listed := Drop(l, file), Own(l, file, placed), Enumerated(file, placed);
    DropOwns(l, file, f, x);
    RowidsMembers(listed, x);
    assert Rowids(listed) == placed;
    assert forall m :: m in l'.mapping <==> m in mid.mapping || m in listed;
    assert forall m | m in listed :: m.file == file;
  }

  /** Mappings of different rows, followed by those of other rows, each once. */
  lemma {:induction false} OnceBoth(ms: seq<Mapping>, file: File, placed: seq<nat>)
    requires MappedOnce(ms) && NoRepeat(placed) && forall m, id | m in ms && id in placed :: m.rowid != id
    ensures MappedOnce(ms + Enumerated(file, placed))
  {
    var all := ms + Enumerated(file, placed);
    forall i, j ensures OtherRow(all, i, j) {
      assert OtherRow(ms, i, j) && Unlike(placed, i - |ms|, j - |ms|);
      assert 0 <= i < |ms| ==> ms[i] in ms;
      assert |ms| <= j < |all| ==> placed[j - |ms|] in placed;
    }
  }

  lemma {:induction false} OwnKeepsMapping(ids: set<nat>, l: Ledger, file: File, placed: seq<nat>, ids': set<nat>)
    requires Exact(ids, l) && Placeable(ids, l, file, placed)
    requires forall id :: id in ids' <==> id in ids - OwnedBy(ids, l, file) || id in placed
    ensures MappedLive(ids', Own(l, file, placed).mapping) && MappedOnce(Own(l, file, placed).mapping)
  {
    var mid, listed := Drop(l, file), Enumerated(file, placed);
    DropKeepsExact(ids, l, file);
    forall m, id | m in mid.mapping && id in placed ensures m.rowid != id {
      PlacedIsUnclaimed(ids, l, file, placed, id, m.file);
    }
    OnceBoth(mid.mapping, file, placed);
    forall m | m in listed ensures m.rowid in ids' {
      assert placed[m.index] in placed;
    }
  }

  lemma {:induction false} OwnKeepsSpans(ids: set<nat>, l: Ledger, file: File, placed: seq<nat>, ids': set<nat>)
    requires Exact(ids, l) && Placeable(ids, l, file, placed)
    requires forall id :: id in ids' <==> id in ids - OwnedBy(ids, l, file) || id in placed
    ensures SpansLive(ids', Own(l, file, placed).ranges) && Apart(Own(l, file, placed).ranges)
    ensures NoneMapped(Own(l, file, placed).mapping, Own(l, file, placed).ranges)
  {
    DropKeepsExact(ids, l, file);
    var mid, own := Drop(l, file), Own(l, file, placed);
    forall m, r ensures Clear(own.mapping, own.ranges, m, r) {
      assert Clear(mid.mapping, mid.ranges, m, r);
      if m in Enumerated(file, placed) && r in mid.ranges {
        assert placed[m.index] in placed;
        PlacedIsUnclaimed(ids, l, file, placed, m.rowid, r.file);
      }
    }
  }

  lemma {:induction false} OwnRecords(ids: set<nat>, l: Ledger, file: File, placed: seq<nat>, ids': set<nat>)
    requires AllRecorded(ids, l)
    requires forall id :: id in ids' <==> id in ids - OwnedBy(ids, l, file) || id in placed
    ensures AllRecorded(ids', Own(l, file, placed))
  {
    forall x | x in ids' ensures Recorded(Own(l, file, placed), x) {
      if x in placed {
        OwnOwns(l, file, placed, file, x);
      } else {
        var f :| Owns(l, f, x);
        assert f != file;
        OwnOwns(l, file, placed, f, x);
      }
    }
  }

  /**
   Recording a file's rows afresh keeps the ledger exact, when each of them is
   one it owned or lies past every other owner's.
   */
  lemma {:induction false} OwnKeepsExact(ids: set<nat>, l: Ledger, file: File, placed: seq<nat>, ids': set<nat>)
    requires Exact(ids, l) && Placeable(ids, l, file, placed)
    requires forall id :: id in ids' <==> id in ids - OwnedBy(ids, l, file) || id in placed
    ensures Exact(ids', Own(l, file, placed))
  {
    OwnKeepsMapping(ids, l, file, placed, ids');
    OwnKeepsSpans(ids, l, file, placed, ids');
    OwnRecords(ids, l, file, placed, ids');
  }

  lemma {:induction false} OwnOwnedBy(ids: set<nat>, l: Ledger, file: File, placed: seq<nat>, ids': set<nat>, f: File)
    requires Exact(ids, l) && Placeable(ids, l, file, placed)
    requires forall id :: id in ids' <==> id in ids - OwnedBy(ids, l, file) || id in placed
    ensures OwnedBy(ids', Own(l, file, placed), f) == if f == file then set id | id in placed else OwnedBy(ids, l, f)
  {
    forall x | x in ids' || x in ids
      ensures x in OwnedBy(ids', Own(l, file, placed), f) <==>
        if f == file then x in placed else x in OwnedBy(ids, l, f)
    {
      OwnOwns(l, file, placed, f, x);
      if f != file && Owns(l, f, x) {
        if x in ids && Owns(l, file, x) {
          OneOwner(ids, l, f, file, x);
        }
        if x in placed {
          PlacedIsUnclaimed(ids, l, file, placed, x, f);
          DropOwns(l, file, f, x);
        }
      }
    }
  }

  lemma {:induction false} OfConcat(a: seq<Mapping>, b: seq<Mapping>, file: File)
    ensures Of(a + b, file) == Of(a, file) + Of(b, file)
    decreases |b|
  {
    if b == [] {
      assert a + b == a;
    } else {
      assert (a + b)[..|a + b| - 1] == a + b[..|b| - 1];
      OfConcat(a, b[..|b| - 1], file);
    }
  }

  lemma {:induction false} OfAll(ms: seq<Mapping>, file: File)
    requires forall m | m in ms :: m.file == file
    ensures Of(ms, file) == ms
  {
    if ms != [] {
      assert ms == ms[..|ms| - 1] + [ms[|ms| - 1]];
      OfAll(ms[..|ms| - 1], file);
    }
  }

  lemma {:induction false} HasMember<T(!new)>(s: seq<T>)
    ensures s == [] || exists x :: x in s
  {
    if s != [] {
      assert s[0] in s;
    }
  }

  lemma {:induction false} NothingLeftOf(l: Ledger, file: File)
    ensures Of(Except(l.mapping, file), file) == [] && SpansOf(SpansExcept(l.ranges, file), file) == []
  {
    var ms, spans := Of(Except(l.mapping, file), file), SpansOf(SpansExcept(l.ranges, file), file);
    HasMember(ms);
    HasMember(spans);
  }

  lemma {:induction false} EnumeratedReads(ids: set<nat>, file: File, placed: seq<nat>)
    requires forall id | id in placed :: id in ids
    ensures Live(ids, Rowids(ByIndex(Enumerated(file, placed)))) == placed
  {
    assert forall i, j :: InOrder(Enumerated(file, placed), i, j);
    ByIndexKeepsOrdered(Enumerated(file, placed));
    assert Rowids(Enumerated(file, placed)) == placed;
  }

  /** Rows recorded afresh read back in the order they were placed. */
  lemma {:induction false} OwnReads(ids: set<nat>, l: Ledger, file: File, placed: seq<nat>)
    requires forall id | id in placed :: id in ids
    ensures Read(ids, Own(l, file, placed), file) == placed
  {
    var listed := Enumerated(file, placed);
    OfConcat(Except(l.mapping, file), listed, file);
    OfAll(listed, file);
    NothingLeftOf(l, file);
    assert Of(Own(l, file, placed).mapping, file) == listed;
    EnumeratedReads(ids, file, placed);
  }

  // ------------------------------------------------------- after a reconcile

  /** A file's rows end at `placed`, and no other owner's row comes or goes. */
  ghost predicate Moves(ids: set<nat>, l: Ledger, file: File, placed: seq<nat>, ids': set<nat>) {
    && Exact(ids, l) && Placeable(ids, l, file, placed)
    && forall id :: id in ids' <==> id in ids - OwnedBy(ids, l, file) || id in placed
  }

  /** Nothing is written when every row is where it was read. */
  function Settle(ids: set<nat>, l: Ledger, file: File, placed: seq<nat>): Ledger {
    if placed == Read(ids, l, file) then l else Own(l, file, placed)
  }

  /** Rows that stayed put leave the live rowids as they were. */
  lemma {:induction false} SameMembers(ids: set<nat>, owned: set<nat>, placed: seq<nat>, ids': set<nat>)
    requires owned <= ids && forall id :: id in placed <==> id in owned
    requires forall id :: id in ids' <==> id in ids - owned || id in placed
    ensures ids' == ids && owned == set id | id in placed
  {
  }

  lemma {:induction false} StayedPut(ids: set<nat>, l: Ledger, file: File, placed: seq<nat>, ids': set<nat>)
    requires Moves(ids, l, file, placed, ids') && placed == Read(ids, l, file)
    ensures ids' == ids && OwnedBy(ids, l, file) == set id | id in placed
  {
    var owned := OwnedBy(ids, l, file);
    ReadIsOwned(ids, l, file);
    assert forall id :: id in placed <==> id in owned;
    SameMembers(ids, owned, placed, ids');
  }

  lemma {:induction false} SettleKeepsExact(ids: set<nat>, l: Ledger, file: File, placed: seq<nat>, ids': set<nat>)
    requires Moves(ids, l, file, placed, ids')
    ensures Exact(ids', Settle(ids, l, file, placed))
    ensures Read(ids', Settle(ids, l, file, placed), file) == placed
  {
    if placed == Read(ids, l, file) {
      StayedPut(ids, l, file, placed, ids');
    } else {
      OwnKeepsExact(ids, l, file, placed, ids');
      OwnReads(ids', l, file, placed);
    }
  }

  lemma {:induction false} SettleOwnedBy(ids: set<nat>, l: Ledger, file: File, placed: seq<nat>, ids': set<nat>,
      f: File)
    requires Moves(ids, l, file, placed, ids')
    ensures OwnedBy(ids', Settle(ids, l, file, placed), f) ==
      if f == file then set id | id in placed else OwnedBy(ids, l, f)
  {
    if placed == Read(ids, l, file) {
      StayedPut(ids, l, file, placed, ids');
    } else {
      OwnOwnedBy(ids, l, file, placed, ids', f);
    }
  }

  // ------------------------------------------------------------ one batch

  /** The ledger of a table one batch owns whole. */
  predicate OneBatch(l: Ledger, owner: File) { l.mapping == [] && forall r | r in l.ranges :: r.file == owner }

  function Least(ids: seq<nat>): (m: nat)
    requires ids != []
    ensures m in ids && forall id | id in ids :: m <= id
  {
    var n := |ids| - 1;
    assert ids == ids[..n] + [ids[n]];
    if n == 0 then ids[0]
    else var rest := Least(ids[..n]); if rest <= ids[n] then rest else ids[n]
  }

  function Greatest(ids: seq<nat>): (m: nat)
    requires ids != []
    ensures m in ids && forall id | id in ids :: id <= m
  {
    var n := |ids| - 1;
    assert ids == ids[..n] + [ids[n]];
    if n == 0 then ids[0]
    else var rest := Greatest(ids[..n]); if rest <= ids[n] then ids[n] else rest
  }

  /** The batch's one range fitted to the rows it keeps. */
  function Refit(l: Ledger, owner: File, placed: seq<nat>): Ledger {
    var rest := l.(ranges := SpansExcept(l.ranges, owner));
    if placed == [] then rest else rest.(ranges := rest.ranges + [Span(owner, Least(placed), Greatest(placed))])
  }

  lemma {:induction false} RefitKeepsExact(l: Ledger, owner: File, placed: seq<nat>, ids: set<nat>)
    requires OneBatch(l, owner) && forall id :: id in ids <==> id in placed
    ensures OneBatch(Refit(l, owner, placed), owner) && Exact(ids, Refit(l, owner, placed))
  {
    HasMember(SpansExcept(l.ranges, owner));
    var l' := Refit(l, owner, placed);
    forall id | id in ids ensures Recorded(l', id) {
      assert Covers(l'.ranges[0], id);
      assert Owns(l', owner, id);
    }
  }

  /** The batch owns every row. */
  lemma {:induction false} BatchOwnsAll(ids: set<nat>, l: Ledger, owner: File)
    requires Exact(ids, l) && OneBatch(l, owner)
    ensures OwnedBy(ids, l, owner) == ids
  {
    forall id | id in ids ensures Owns(l, owner, id) {
      var f :| Owns(l, f, id);
    }
  }

  /** The ledger after a batch of `n` rows is inserted past `base`. */
  function Ranged(l: Ledger, file: File, base: nat, n: nat): Ledger {
    if n == 0 then l else Range(l, file, base + 1, base + n)
  }

  lemma {:induction false} RangedIsOneBatch(l: Ledger, owner: File, base: nat, n: nat)
    requires OneBatch(l, owner)
    ensures OneBatch(Ranged(l, owner, base, n), owner)
  {
  }

  lemma {:induction false} NothingRanged(ids: set<nat>, l: Ledger, file: File, base: nat, added: set<nat>)
    requires Exact(ids, l) && added == {}
    ensures Exact(ids + added, Ranged(l, file, base, 0))
  {
    assert ids + added == ids && Ranged(l, file, base, 0) == l;
  }

  lemma {:induction false} SomeRanged(ids: set<nat>, l: Ledger, file: File, base: nat, n: nat, added: set<nat>)
    requires Exact(ids, l) && Under(ids, base) && n > 0
    requires forall id :: id in added <==> base + 1 <= id <= base + n
    ensures Exact(ids + added, Ranged(l, file, base, n))
  {
    RangeKeepsExact(ids, l, file, base + 1, base + n, added, ids + added, Ranged(l, file, base, n));
  }

  lemma {:induction false} RangedKeepsExact(ids: set<nat>, l: Ledger, file: File, base: nat, n: nat, added: set<nat>)
    requires Exact(ids, l) && Under(ids, base)
    requires forall id :: id in added <==> base + 1 <= id <= base + n
    ensures Exact(ids + added, Ranged(l, file, base, n))
  {
    if n == 0 {
      NothingRanged(ids, l, file, base, added);
    } else {
      SomeRanged(ids, l, file, base, n, added);
    }
  }

  lemma {:induction false} RangedOwnedBy(ids: set<nat>, l: Ledger, file: File, base: nat, n: nat, added: set<nat>,
      f: File)
    requires Exact(ids, l) && Under(ids, base)
    requires forall id :: id in added <==> base + 1 <= id <= base + n
    ensures OwnedBy(ids + added, Ranged(l, file, base, n), f) == OwnedBy(ids, l, f) + if f == file then added else {}
  {
    if n == 0 {
      assert ids + added == ids && added == {};
    } else {
      RangeOwnedBy(ids, l, file, base + 1, base + n, added, f);
    }
  }
}
