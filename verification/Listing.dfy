/**
 A directory's entries sorted by name (listing.rs): entries are gathered into
 chunks, each chunk is sorted, and the sorted chunks are merged in runs, one run
 a core, divided at names taken evenly from the first chunk.
 */
module Listing {
  import opened Packing
  import opened Values

  type Name = seq<byte>

  datatype Seen = Dir | File | Link | Other | Unknown

  // ------------------------------------------------------------- comparisons

  datatype Order = Less | Equal | Greater

  /** Byte order: at the first byte that differs, else the shorter first. */
  function Lex(a: Name, b: Name): Order {
    if a == [] then (if b == [] then Equal else Less)
    else if b == [] then Greater
    else if a[0] < b[0] then Less
    else if b[0] < a[0] then Greater
    else Lex(a[1..], b[1..])
  }

  predicate Le(a: Name, b: Name) { Lex(a, b) != Greater }

  lemma {:induction false} LexTurns(a: Name, b: Name)
    ensures Lex(a, b) == Less <==> Lex(b, a) == Greater
    ensures Lex(a, b) == Equal <==> a == b
  {
    if a != [] && b != [] {
      LexTurns(a[1..], b[1..]);
      assert a == [a[0]] + a[1..] && b == [b[0]] + b[1..];
    }
  }

  lemma {:induction false} LeTransitive(a: Name, b: Name, c: Name)
    requires Le(a, b) && Le(b, c)
    ensures Le(a, c)
    ensures Lex(a, b) == Less || Lex(b, c) == Less ==> Lex(a, c) == Less
  {
    if a != [] && b != [] && c != [] && a[0] == b[0] == c[0] {
      LeTransitive(a[1..], b[1..], c[1..]);
    }
  }

  /** The first `n` bytes, zeros past the end. */
  function Padded(name: Name, n: nat): (word: seq<byte>)
    ensures |word| == n
  {
    seq(n, i requires 0 <= i < n => if i < |name| then name[i] else 0)
  }

  /** A word's value, its first byte the greatest. */
  function BigEndian(word: seq<byte>): nat {
    if word == [] then 0 else BigEndian(word[..|word| - 1]) * 256 + word[|word| - 1] as nat
  }

  function Prefix(name: Name): nat { BigEndian(Padded(name, 8)) }

  /** The word is built in a small array. */
  method NamePrefix(name: Name) returns (prefix: nat)
    ensures prefix == Prefix(name)
  {
    var word := new byte[8](_ => 0);
    var len := Least(|name|, 8);
    for i := 0 to len
      invariant forall j | 0 <= j < 8 :: word[j] == if j < i then name[j] else 0
    {
      word[i] := name[i];
    }
    assert word[..] == Padded(name, 8);
    prefix := BigEndian(word[..]);
  }

  lemma {:induction false} LexSnoc(a: Name, b: Name, x: byte, y: byte)
    requires |a| == |b|
    ensures Lex(a + [x], b + [y]) ==
      if Lex(a, b) != Equal then Lex(a, b) else if x < y then Less else if y < x then Greater else Equal
  {
    if a == [] {
      assert a + [x] == [x] && b + [y] == [y];
    } else {
      assert (a + [x])[1..] == a[1..] + [x] && (b + [y])[1..] == b[1..] + [y];
      LexSnoc(a[1..], b[1..], x, y);
    }
  }

  /** Words of one length compare as their bytes do. */
  lemma {:induction false} WordsCompare(a: seq<byte>, b: seq<byte>)
    requires |a| == |b|
    ensures BigEndian(a) < BigEndian(b) <==> Lex(a, b) == Less
    ensures BigEndian(a) == BigEndian(b) <==> Lex(a, b) == Equal
  {
    if a != [] {
      var n := |a| - 1;
      WordsCompare(a[..n], b[..n]);
      LexSnoc(a[..n], b[..n], a[n], b[n]);
      assert a == a[..n] + [a[n]] && b == b[..n] + [b[n]];
    }
  }

  lemma {:induction false} PaddedTail(name: Name, n: nat)
    requires n > 0
    ensures Padded(name, n)[1..] == Padded(if name == [] then [] else name[1..], n - 1)
    ensures Padded(name, n)[0] == if name == [] then 0 else name[0]
  {
  }

  /** Where padded words differ, the names compare the same way. */
  lemma {:induction false} PaddedCompare(a: Name, b: Name, n: nat)
    ensures Lex(Padded(a, n), Padded(b, n)) != Equal ==> Lex(a, b) == Lex(Padded(a, n), Padded(b, n))
    decreases n
  {
    if n > 0 {
      PaddedTail(a, n);
      PaddedTail(b, n);
      PaddedCompare(if a == [] then [] else a[1..], if b == [] then [] else b[1..], n - 1);
      if a == [] && b == [] {
        LexTurns(Padded(a, n), Padded(b, n));
      }
    }
  }

  /** An entry: its name's prefix, where its name sits, and what it is. */
  datatype Listed = Listed(prefix: nat, chunk: nat, start: nat, end: nat, seen: Seen)

  /** How two entries order by name, their prefixes first. */
  function ByName(a: Listed, b: Listed, name: Listed -> Name): Order {
    if a.prefix < b.prefix then Less
    else if b.prefix < a.prefix then Greater
    else Lex(name(a), name(b))
  }

  /** Comparing prefixes first is comparing names. */
  lemma {:induction false} ByNameIsLex(a: Listed, b: Listed, name: Listed -> Name)
    requires a.prefix == Prefix(name(a)) && b.prefix == Prefix(name(b))
    ensures ByName(a, b, name) == Lex(name(a), name(b))
  {
    WordsCompare(Padded(name(a), 8), Padded(name(b), 8));
    PaddedCompare(name(a), name(b), 8);
    LexTurns(Padded(name(a), 8), Padded(name(b), 8));
  }

  // ------------------------------------------------------------------ sorting

  ghost predicate Ordered(entries: seq<Listed>, name: Listed -> Name) {
    forall i, j | 0 <= i < j < |entries| :: Le(name(entries[i]), name(entries[j]))
  }

  /** Each entry's prefix is its name's. */
  ghost predicate Prefixed(entries: seq<Listed>, name: Listed -> Name) {
    forall e | e in entries :: e.prefix == Prefix(name(e))
  }

  /** A sort by `ByName`, for the standard library's. */
  function Insert(e: Listed, sorted: seq<Listed>, name: Listed -> Name): (r: seq<Listed>)
    ensures multiset(r) == multiset(sorted) + multiset{e}
  {
    if sorted == [] || ByName(sorted[|sorted| - 1], e, name) != Greater then sorted + [e]
    else
      var init, last := sorted[..|sorted| - 1], sorted[|sorted| - 1];
      assert sorted == init + [last];
      Insert(e, init, name) + [last]
  }

  function SortByName(entries: seq<Listed>, name: Listed -> Name): (r: seq<Listed>)
    ensures multiset(r) == multiset(entries)
  {
    if entries == [] then []
    else
      var init, last := entries[..|entries| - 1], entries[|entries| - 1];
      assert entries == init + [last];
      Insert(last, SortByName(init, name), name)
  }

  lemma {:induction false} SameMembers(a: seq<Listed>, b: seq<Listed>)
    requires multiset(a) == multiset(b)
    ensures forall e :: e in a <==> e in b
  {
    forall e ensures e in a <==> e in b {
      assert e in multiset(a) <==> e in multiset(b);
    }
  }

  lemma {:induction false} InsertOrders(e: Listed, sorted: seq<Listed>, name: Listed -> Name)
    requires Ordered(sorted, name) && Prefixed(sorted + [e], name)
    ensures Ordered(Insert(e, sorted, name), name)
  {
    assert e in sorted + [e];
    if sorted != [] {
      var init, last := sorted[..|sorted| - 1], sorted[|sorted| - 1];
      assert sorted == init + [last] && last in sorted + [e];
      ByNameIsLex(last, e, name);
      if ByName(last, e, name) != Greater {
        forall i | 0 <= i < |sorted| ensures Le(name(sorted[i]), name(e)) {
          if i < |init| {
            LeTransitive(name(sorted[i]), name(last), name(e));
          }
        }
      } else {
        InsertOrders(e, init, name);
        InsertUnder(e, init, last, name);
      }
    }
  }

  lemma {:induction false} InsertUnder(e: Listed, init: seq<Listed>, last: Listed, name: Listed -> Name)
    requires forall x | x in init :: Le(name(x), name(last))
    requires Lex(name(last), name(e)) == Greater && Ordered(Insert(e, init, name), name)
    ensures Ordered(Insert(e, init, name) + [last], name)
  {
    var r := Insert(e, init, name);
    LexTurns(name(last), name(e));
    LexTurns(name(e), name(last));
    forall k | 0 <= k < |r| ensures Le(name(r[k]), name(last)) {
      assert r[k] in multiset(r);
      assert r[k] == e || r[k] in multiset(init);
    }
  }

  lemma {:induction false} SortOrders(entries: seq<Listed>, name: Listed -> Name)
    requires Prefixed(entries, name)
    ensures Ordered(SortByName(entries, name), name)
  {
    if entries != [] {
      var init, last := entries[..|entries| - 1], entries[|entries| - 1];
      assert entries == init + [last];
      SortOrders(init, name);
      SameMembers(SortByName(init, name), init);
      InsertOrders(last, SortByName(init, name), name);
    }
  }

  // ------------------------------------------------------------------- chunks

  const CHUNK_ENTRIES: nat := 8192

  /** Entries read in a row, and one buffer holding their names end to end. */
  datatype Chunk = Chunk(index: nat, names: seq<byte>, entries: seq<Listed>)

  /** The name of `l` in the buffers of the chunks so far. */
  function NameIn(buffers: seq<seq<byte>>, l: Listed): Name {
    if l.chunk < |buffers| && l.start <= l.end <= |buffers[l.chunk]| then buffers[l.chunk][l.start..l.end] else []
  }

  function Namer(buffers: seq<seq<byte>>): Listed -> Name { (l: Listed) => NameIn(buffers, l) }

  function Buffers(chunks: seq<Chunk>): (r: seq<seq<byte>>)
    ensures |r| == |chunks|
  {
    seq(|chunks|, k requires 0 <= k < |chunks| => chunks[k].names)
  }

  function Entries(chunks: seq<Chunk>): (r: seq<seq<Listed>>)
    ensures |r| == |chunks|
  {
    seq(|chunks|, k requires 0 <= k < |chunks| => chunks[k].entries)
  }

  /** A chunk's entries lie in its own buffer, under their own prefixes. */
  ghost predicate InPlace(c: Chunk) {
    forall i | 0 <= i < |c.entries| :: OwnEntry(c, c.entries[i])
  }

  ghost predicate OwnEntry(c: Chunk, l: Listed) {
    l.chunk == c.index && l.start <= l.end <= |c.names| && l.prefix == Prefix(c.names[l.start..l.end])
  }

  /** Chunks as they are read: numbered, not empty, not over-full. */
  ghost predicate ReadInOrder(chunks: seq<Chunk>) {
    forall k | 0 <= k < |chunks| ::
      chunks[k].index == k && InPlace(chunks[k]) && 0 < |chunks[k].entries| <= CHUNK_ENTRIES
  }

  /** What a directory lists: names and what they are. */
  datatype Found = Found(name: Name, seen: Seen)

  function FoundAs(entries: seq<Listed>, name: Listed -> Name): (r: seq<Found>)
    ensures |r| == |entries|
  {
    seq(|entries|, i requires 0 <= i < |entries| => Found(name(entries[i]), entries[i].seen))
  }

  function OwnNamer(c: Chunk): Listed -> Name {
    (l: Listed) => if l.start <= l.end <= |c.names| then c.names[l.start..l.end] else []
  }

  function ChunkFinds(c: Chunk): seq<Found> {
    FoundAs(c.entries, OwnNamer(c))
  }

  function AllFinds(chunks: seq<Chunk>): seq<Found> {
    if chunks == [] then [] else AllFinds(chunks[..|chunks| - 1]) + ChunkFinds(chunks[|chunks| - 1])
  }

  /** The chunk being filled, and those already full. */
  class Chunker {
    var chunk: Chunk
    var handed: seq<Chunk>

    constructor ()
      ensures Valid() && Pushed() == []
    {
      chunk, handed := Chunk(0, [], []), [];
    }

    ghost predicate Valid()
      reads this
    {
      && ReadInOrder(handed) && (forall k | 0 <= k < |handed| :: |handed[k].entries| == CHUNK_ENTRIES)
      && chunk.index == |handed| && InPlace(chunk) && |chunk.entries| <= CHUNK_ENTRIES
    }

    /** Everything pushed so far. */
    ghost function Pushed(): seq<Found>
      reads this
    {
      AllFinds(handed) + ChunkFinds(chunk)
    }

    method Push(name: Name, seen: Seen)
      requires Valid()
      modifies this
      ensures Valid() && Pushed() == old(Pushed()) + [Found(name, seen)]
    {
      if |chunk.entries| == CHUNK_ENTRIES {
        HandOn(handed, chunk);
        handed := handed + [chunk];
        chunk := Chunk(chunk.index + 1, [], []);
      }
      var prefix := NamePrefix(name);
      var start := |chunk.names|;
      ghost var before := chunk;
      chunk := chunk.(names := chunk.names + name,
                      entries := chunk.entries + [Listed(prefix, chunk.index, start, start + |name|, seen)]);
      OneMoreEntry(before, name, seen);
      assert AllFinds(handed) + (ChunkFinds(before) + [Found(name, seen)]) ==
        AllFinds(handed) + ChunkFinds(before) + [Found(name, seen)];
    }

    /** The chunks in all: the last is handed on unless it is empty. */
    method Finish() returns (chunks: seq<Chunk>)
      requires Valid()
      ensures ReadInOrder(chunks) && AllFinds(chunks) == Pushed()
    {
      chunks := handed;
      if chunk.entries != [] {
        HandOn(handed, chunk);
        chunks := chunks + [chunk];
      }
    }
  }

  lemma {:induction false} HandOn(handed: seq<Chunk>, chunk: Chunk)
    ensures AllFinds(handed + [chunk]) == AllFinds(handed) + ChunkFinds(chunk)
  {
    assert (handed + [chunk])[..|handed|] == handed;
  }

  lemma {:induction false} OneMoreEntry(c: Chunk, name: Name, seen: Seen)
    requires InPlace(c)
    ensures var start := |c.names|;
      var c' := c.(names := c.names + name,
        entries := c.entries + [Listed(Prefix(name), c.index, start, start + |name|, seen)]);
      InPlace(c') && ChunkFinds(c') == ChunkFinds(c) + [Found(name, seen)]
  {
    var start, names := |c.names|, c.names + name;
    assert names[start..start + |name|] == name;
    forall i | 0 <= i < |c.entries|
      ensures OwnEntry(c, c.entries[i]) &&
        names[c.entries[i].start..c.entries[i].end] == c.names[c.entries[i].start..c.entries[i].end] {
    }
  }

  // ------------------------------------------------------------------ merging

  /** The entries of a sorted sample that cut it in `runs` even parts. */
  function Splits(sorted: seq<Listed>, runs: nat): (r: seq<Listed>)
    requires sorted != [] && runs > 0
    ensures |r| == runs - 1
  {
    seq(runs - 1, k requires 0 <= k < runs - 1 => SplitAt(|sorted|, k + 1, runs); sorted[(k + 1) * |sorted| / runs])
  }

  lemma {:induction false} MulRises(a: int, b: int, d: nat)
    ensures a <= b ==> a * d <= b * d
  {
  }

  lemma {:induction false} DivUnder(a: nat, d: nat, q: nat)
    requires d > 0
    ensures a < q * d ==> a / d < q
    ensures q * d <= a ==> q <= a / d
  {
    MulRises(q, a / d, d);
    MulRises(a / d + 1, q, d);
  }

  lemma {:induction false} SplitAt(len: nat, k: nat, runs: nat)
    requires len > 0 && k < runs
    ensures 0 <= k * len / runs < len
  {
    MulRises(k + 1, runs, len);
    DivUnder(k * len, runs, len);
  }

  lemma {:induction false} SplitsRise(len: nat, j: nat, k: nat, runs: nat)
    requires j <= k && runs > 0
    ensures j * len / runs <= k * len / runs
  {
    MulRises(j, k, len);
    DivUnder(k * len, runs, j * len / runs);
  }

  lemma {:induction false} SplitsOrdered(sorted: seq<Listed>, runs: nat, name: Listed -> Name)
    requires sorted != [] && runs > 0 && Ordered(sorted, name) && Prefixed(sorted, name)
    ensures Ordered(Splits(sorted, runs), name) && Prefixed(Splits(sorted, runs), name)
  {
    var splits := Splits(sorted, runs);
    forall j, k | 0 <= j < k < |splits| ensures Le(name(splits[j]), name(splits[k])) {
      SplitAt(|sorted|, j + 1, runs);
      SplitAt(|sorted|, k + 1, runs);
      SplitsRise(|sorted|, j + 1, k + 1, runs);
      LexTurns(name(splits[j]), name(splits[j]));
    }
    forall e | e in splits ensures e.prefix == Prefix(name(e)) {
      var k :| 0 <= k < |splits| && splits[k] == e;
      SplitAt(|sorted|, k + 1, runs);
      assert sorted[(k + 1) * |sorted| / runs] in sorted;
    }
  }

  /** How many entries, from `i` on, come before `split`. */
  function PartitionPoint(entries: seq<Listed>, split: Listed, name: Listed -> Name, i: nat): (r: nat)
    requires i <= |entries|
    ensures i <= r <= |entries|
    ensures forall k | i <= k < r :: ByName(entries[k], split, name) == Less
    ensures r < |entries| ==> ByName(entries[r], split, name) != Less
    decreases |entries| - i
  {
    if i == |entries| || ByName(entries[i], split, name) != Less then i else PartitionPoint(entries, split, name, i + 1)
  }

  /** Where run `r` of a chunk's sorted entries begins. */
  function Bound(entries: seq<Listed>, splits: seq<Listed>, name: Listed -> Name, r: nat): (b: nat)
    ensures b <= |entries|
  {
    if r == 0 then 0 else if r > |splits| then |entries| else PartitionPoint(entries, splits[r - 1], name, 0)
  }

  /** Sorted entries split cleanly: those before the bound come before the
      split, the others do not. */
  lemma {:induction false} BoundSplits(entries: seq<Listed>, splits: seq<Listed>, name: Listed -> Name, r: nat, k: nat)
    requires Ordered(entries, name) && Prefixed(entries, name) && Prefixed(splits, name)
    requires 0 < r <= |splits| && k < |entries|
    ensures k < Bound(entries, splits, name, r) <==> Lex(name(entries[k]), name(splits[r - 1])) == Less
  {
    var b, split := Bound(entries, splits, name, r), splits[r - 1];
    assert entries[k] in entries && split in splits;
    ByNameIsLex(entries[k], split, name);
    if b <= k {
      assert entries[b] in entries;
      ByNameIsLex(entries[b], split, name);
      LexTurns(name(entries[k]), name(entries[k]));
      if Lex(name(entries[k]), name(split)) == Less {
        LeTransitive(name(entries[b]), name(entries[k]), name(split));
      }
    }
  }

  lemma {:induction false} BoundsRise(entries: seq<Listed>, splits: seq<Listed>, name: Listed -> Name, r: nat)
    requires Ordered(entries, name) && Prefixed(entries, name) && Ordered(splits, name) && Prefixed(splits, name)
    ensures Bound(entries, splits, name, r) <= Bound(entries, splits, name, r + 1)
  {
    var b, b' := Bound(entries, splits, name, r), Bound(entries, splits, name, r + 1);
    if 0 < r && r + 1 <= |splits| && b' < b {
      BoundSplits(entries, splits, name, r, b');
      BoundSplits(entries, splits, name, r + 1, b');
      LeTransitive(name(entries[b']), name(splits[r - 1]), name(splits[r]));
    }
  }

  /** The first `r` runs of every chunk. */
  function Heads(chunks: seq<seq<Listed>>, splits: seq<Listed>, name: Listed -> Name, r: nat): (h: seq<seq<Listed>>)
    ensures |h| == |chunks|
  {
    seq(|chunks|, k requires 0 <= k < |chunks| => chunks[k][..Bound(chunks[k], splits, name, r)])
  }

  /** Run `r` of a chunk. */
  function Share(entries: seq<Listed>, splits: seq<Listed>, name: Listed -> Name, r: nat): seq<Listed> {
    var lo, hi := Bound(entries, splits, name, r), Bound(entries, splits, name, r + 1);
    if lo <= hi then entries[lo..hi] else []
  }

  function Shares(chunks: seq<seq<Listed>>, splits: seq<Listed>, name: Listed -> Name, r: nat): (h: seq<seq<Listed>>)
    ensures |h| == |chunks|
  {
    seq(|chunks|, k requires 0 <= k < |chunks| => Share(chunks[k], splits, name, r))
  }

  lemma {:induction false} ConcatBags<T>(a: seq<seq<T>>, b: seq<seq<T>>, c: seq<seq<T>>)
    requires |a| == |b| == |c| && forall k | 0 <= k < |a| :: c[k] == a[k] + b[k]
    ensures multiset(Concat(c)) == multiset(Concat(a)) + multiset(Concat(b))
  {
    if a != [] {
      var n := |a| - 1;
      ConcatBags(a[..n], b[..n], c[..n]);
      assert Concat(c) == Concat(c[..n]) + (a[n] + b[n]);
    }
  }

  lemma {:induction false} HeadsGrow(chunks: seq<seq<Listed>>, splits: seq<Listed>, name: Listed -> Name, r: nat)
    requires Mergeable(chunks, name) && Ordered(splits, name) && Prefixed(splits, name)
    ensures multiset(Concat(Heads(chunks, splits, name, r + 1))) ==
      multiset(Concat(Heads(chunks, splits, name, r))) + multiset(Concat(Shares(chunks, splits, name, r)))
  {
    var a, b, c := Heads(chunks, splits, name, r), Shares(chunks, splits, name, r), Heads(chunks, splits, name, r + 1);
    forall k | 0 <= k < |chunks| ensures c[k] == a[k] + b[k] {
      BoundsRise(chunks[k], splits, name, r);
    }
    ConcatBags(a, b, c);
  }

  ghost predicate Mergeable(chunks: seq<seq<Listed>>, name: Listed -> Name) {
    forall k | 0 <= k < |chunks| :: Ordered(chunks[k], name) && Prefixed(chunks[k], name)
  }

  /** `e` belongs to run `r`. */
  ghost predicate InRun(e: Listed, splits: seq<Listed>, name: Listed -> Name, r: nat) {
    && e.prefix == Prefix(name(e))
    && (0 < r <= |splits| ==> Le(name(splits[r - 1]), name(e)))
    && (r < |splits| ==> Lex(name(e), name(splits[r])) == Less)
  }

  lemma {:induction false} PlacedInRun(entries: seq<Listed>, splits: seq<Listed>, name: Listed -> Name, r: nat, i: nat)
    requires Ordered(entries, name) && Prefixed(entries, name) && Prefixed(splits, name) && r <= |splits|
    requires Bound(entries, splits, name, r) <= i < Bound(entries, splits, name, r + 1)
    ensures InRun(entries[i], splits, name, r)
  {
    assert entries[i] in entries;
    if r > 0 {
      BoundSplits(entries, splits, name, r, i);
      LexTurns(name(entries[i]), name(splits[r - 1]));
    }
    if r < |splits| {
      BoundSplits(entries, splits, name, r + 1, i);
    }
  }

  lemma {:induction false} ShareInRun(entries: seq<Listed>, splits: seq<Listed>, name: Listed -> Name, r: nat,
      e: Listed)
    requires Ordered(entries, name) && Prefixed(entries, name) && Prefixed(splits, name)
    requires r <= |splits| && e in Share(entries, splits, name, r)
    ensures InRun(e, splits, name, r)
  {
    var share := Share(entries, splits, name, r);
    var i :| 0 <= i < |share| && share[i] == e;
    PlacedInRun(entries, splits, name, r, Bound(entries, splits, name, r) + i);
  }

  lemma {:induction false} ConcatMembers<T(!new)>(runs: seq<seq<T>>, x: T)
    ensures x in Concat(runs) <==> exists k :: 0 <= k < |runs| && x in runs[k]
  {
    if runs != [] {
      var n := |runs| - 1;
      ConcatMembers(runs[..n], x);
      assert forall k | 0 <= k < n :: runs[..n][k] == runs[k];
    }
  }

  /** The runs merged so far are in order, and before the next. */
  ghost predicate Merged(entries: seq<Listed>, splits: seq<Listed>, name: Listed -> Name, r: nat) {
    && Ordered(entries, name)
    && (0 < r <= |splits| ==> forall e | e in entries :: Lex(name(e), name(splits[r - 1])) == Less)
    && (r == 0 ==> entries == [])
  }

  lemma {:induction false} RunAppends(entries: seq<Listed>, run: seq<Listed>, splits: seq<Listed>,
      name: Listed -> Name, r: nat)
    requires Merged(entries, splits, name, r) && r <= |splits| && Ordered(splits, name)
    requires Ordered(run, name) && forall e | e in run :: InRun(e, splits, name, r)
    ensures Merged(entries + run, splits, name, r + 1)
  {
    var all := entries + run;
    forall i, j | 0 <= i < j < |all| ensures Le(name(all[i]), name(all[j])) {
      if i < |entries| <= j {
        assert all[i] in entries && all[j] in run;
        LeTransitive(name(all[i]), name(splits[r - 1]), name(all[j]));
      }
    }
    if r < |splits| {
      forall e | e in all ensures Lex(name(e), name(splits[r])) == Less {
        if e in entries {
          LeTransitive(name(e), name(splits[r - 1]), name(splits[r]));
        }
      }
    }
  }

  /** A core's part: its share of every chunk, sorted. */
  method MergeRun(chunks: seq<seq<Listed>>, splits: seq<Listed>, name: Listed -> Name, r: nat)
      returns (merged: seq<Listed>)
    requires Mergeable(chunks, name) && Prefixed(splits, name) && r <= |splits|
    ensures multiset(merged) == multiset(Concat(Shares(chunks, splits, name, r)))
    ensures Ordered(merged, name) && forall e | e in merged :: InRun(e, splits, name, r)
  {
    ghost var shares := Shares(chunks, splits, name, r);
    merged := [];
    for k := 0 to |chunks|
      invariant merged == Concat(shares[..k])
    {
      assert shares[..k + 1] == shares[..k] + [shares[k]];
      ConcatAppend(shares[..k], shares[k]);
      merged := merged + Share(chunks[k], splits, name, r);
    }
    assert shares[..|chunks|] == shares;
    ghost var gathered := merged;
    forall e | e in gathered ensures InRun(e, splits, name, r) {
      ConcatMembers(shares, e);
      var k :| 0 <= k < |shares| && e in shares[k];
      ShareInRun(chunks[k], splits, name, r, e);
    }
    merged := SortByName(merged, name);
    SortOrders(gathered, name);
    SameMembers(merged, gathered);
  }

  /**
   Merge sorted chunks in a run per core. For any number of cores the result is
   every entry, in order.
   */
  method Merge(chunks: seq<seq<Listed>>, cores: nat, name: Listed -> Name) returns (entries: seq<Listed>)
    requires cores > 0 && chunks != [] && chunks[0] != [] && Mergeable(chunks, name)
    ensures Ordered(entries, name) && multiset(entries) == multiset(Concat(chunks))
  {
    var splits := Splits(chunks[0], cores);
    SplitsOrdered(chunks[0], cores, name);
    entries := MergeRuns(chunks, splits, name);
  }

  /** The runs of the first `r` cores hold the heads of every chunk. */
  ghost predicate HoldsHeads(entries: seq<Listed>, chunks: seq<seq<Listed>>, splits: seq<Listed>,
      name: Listed -> Name, r: nat) {
    multiset(entries) == multiset(Concat(Heads(chunks, splits, name, r)))
  }

  lemma {:induction false} RunHolds(entries: seq<Listed>, run: seq<Listed>, chunks: seq<seq<Listed>>,
      splits: seq<Listed>, name: Listed -> Name, r: nat)
    requires Mergeable(chunks, name) && Ordered(splits, name) && Prefixed(splits, name)
    requires HoldsHeads(entries, chunks, splits, name, r)
    requires multiset(run) == multiset(Concat(Shares(chunks, splits, name, r)))
    ensures HoldsHeads(entries + run, chunks, splits, name, r + 1)
  {
    HeadsGrow(chunks, splits, name, r);
  }

  /** Each core's run in turn, one past the splits. */
  method MergeRuns(chunks: seq<seq<Listed>>, splits: seq<Listed>, name: Listed -> Name) returns (entries: seq<Listed>)
    requires Mergeable(chunks, name) && Ordered(splits, name) && Prefixed(splits, name)
    ensures Ordered(entries, name) && multiset(entries) == multiset(Concat(chunks))
  {
    entries := [];
    EmptyHeads(chunks, splits, name);
    for r := 0 to |splits| + 1
      invariant Merged(entries, splits, name, r)
      invariant HoldsHeads(entries, chunks, splits, name, r)
    {
      var merged := MergeRun(chunks, splits, name, r);
      RunHolds(entries, merged, chunks, splits, name, r);
      RunAppends(entries, merged, splits, name, r);
      entries := entries + merged;
    }
    WholeHeads(chunks, splits, name, |splits| + 1);
  }

  lemma {:induction false} WholeHeads(chunks: seq<seq<Listed>>, splits: seq<Listed>, name: Listed -> Name, r: nat)
    requires r > |splits|
    ensures Heads(chunks, splits, name, r) == chunks
  {
    forall k | 0 <= k < |chunks| ensures Heads(chunks, splits, name, r)[k] == chunks[k] {
      assert chunks[k][..|chunks[k]|] == chunks[k];
    }
  }

  lemma {:induction false} AllEmpty<T>(runs: seq<seq<T>>)
    requires forall k | 0 <= k < |runs| :: runs[k] == []
    ensures Concat(runs) == []
  {
    if runs != [] {
      AllEmpty(runs[..|runs| - 1]);
    }
  }

  lemma {:induction false} EmptyHeads(chunks: seq<seq<Listed>>, splits: seq<Listed>, name: Listed -> Name)
    ensures Concat(Heads(chunks, splits, name, 0)) == []
  {
    AllEmpty(Heads(chunks, splits, name, 0));
  }

  // -------------------------------------------------------------- the listing

  /** The same entries in any order are the same names. */
  lemma {:induction false} SameFinds(a: seq<Listed>, b: seq<Listed>, name: Listed -> Name)
    requires multiset(a) == multiset(b)
    ensures multiset(FoundAs(a, name)) == multiset(FoundAs(b, name))
    decreases |a|
  {
    if a == [] {
      assert |multiset(b)| == 0;
      assert b == [];
    } else {
      var last := a[|a| - 1];
      assert last in multiset(a);
      assert last in b;
      var k :| 0 <= k < |b| && b[k] == last;
      var rest := b[..k] + b[k + 1..];
      BothWithout(a, b, k, rest);
      SameFinds(a[..|a| - 1], rest, name);
      FindsWithout(b, k, rest, name);
      assert FoundAs(a, name) == FoundAs(a[..|a| - 1], name) + [Found(name(last), last.seen)];
    }
  }

  lemma {:induction false} BothWithout(a: seq<Listed>, b: seq<Listed>, k: nat, rest: seq<Listed>)
    requires multiset(a) == multiset(b) && a != [] && k < |b| && b[k] == a[|a| - 1] && rest == b[..k] + b[k + 1..]
    ensures multiset(a[..|a| - 1]) == multiset(rest)
  {
    var last := a[|a| - 1];
    assert a == a[..|a| - 1] + [last];
    assert b == b[..k] + [last] + b[k + 1..];
    assert multiset(a[..|a| - 1]) + multiset{last} == multiset(rest) + multiset{last};
    forall e ensures multiset(a[..|a| - 1])[e] == multiset(rest)[e] {
      assert (multiset(a[..|a| - 1]) + multiset{last})[e] == (multiset(rest) + multiset{last})[e];
    }
  }

  lemma {:induction false} FindsWithout(b: seq<Listed>, k: nat, rest: seq<Listed>, name: Listed -> Name)
    requires k < |b| && rest == b[..k] + b[k + 1..]
    ensures multiset(FoundAs(b, name)) == multiset(FoundAs(rest, name)) + multiset{Found(name(b[k]), b[k].seen)}
  {
    assert FoundAs(b, name) == FoundAs(b[..k], name) + [Found(name(b[k]), b[k].seen)] + FoundAs(b[k + 1..], name);
    assert FoundAs(rest, name) == FoundAs(b[..k], name) + FoundAs(b[k + 1..], name);
  }

  /** An entry's name among all the buffers is the one in its own chunk's. */
  lemma {:induction false} NamesAgree(chunks: seq<Chunk>, k: nat, l: Listed)
    requires ReadInOrder(chunks) && k < |chunks| && l in chunks[k].entries
    ensures var name := Namer(Buffers(chunks)); name(l) == OwnNamer(chunks[k])(l) && l.prefix == Prefix(name(l))
  {
    var i :| 0 <= i < |chunks[k].entries| && chunks[k].entries[i] == l;
    assert OwnEntry(chunks[k], l);
  }

  /** Sort one chunk by the names in its own buffer. */
  function SortChunk(c: Chunk): Chunk { c.(entries := SortByName(c.entries, OwnNamer(c))) }

  lemma {:induction false} SortedChunk(chunks: seq<Chunk>, k: nat)
    requires ReadInOrder(chunks) && k < |chunks|
    ensures var name, entries := Namer(Buffers(chunks)), SortChunk(chunks[k]).entries;
      Ordered(entries, name) && Prefixed(entries, name) && multiset(entries) == multiset(chunks[k].entries)
  {
    var c, name := chunks[k], Namer(Buffers(chunks));
    var entries := SortChunk(c).entries;
    SameMembers(entries, c.entries);
    forall e | e in c.entries ensures name(e) == OwnNamer(c)(e) && e.prefix == Prefix(name(e)) {
      NamesAgree(chunks, k, e);
    }
    SortOrders(c.entries, OwnNamer(c));
    forall i, j | 0 <= i < j < |entries| ensures Le(name(entries[i]), name(entries[j])) {
      assert entries[i] in entries && entries[j] in entries;
    }
  }

  lemma {:induction false} ConcatSameBags<T>(a: seq<seq<T>>, b: seq<seq<T>>)
    requires |a| == |b| && forall k | 0 <= k < |a| :: multiset(a[k]) == multiset(b[k])
    ensures multiset(Concat(a)) == multiset(Concat(b))
  {
    if a != [] {
      ConcatSameBags(a[..|a| - 1], b[..|b| - 1]);
    }
  }

  lemma {:induction false} FindsAre(chunks: seq<Chunk>, upto: nat)
    requires ReadInOrder(chunks) && upto <= |chunks|
    ensures AllFinds(chunks[..upto]) == FoundAs(Concat(Entries(chunks)[..upto]), Namer(Buffers(chunks)))
  {
    if upto > 0 {
      FindsAre(chunks, upto - 1);
      var name, c := Namer(Buffers(chunks)), chunks[upto - 1];
      assert chunks[..upto][..upto - 1] == chunks[..upto - 1] &&
        Entries(chunks)[..upto][..upto - 1] == Entries(chunks)[..upto - 1];
      forall i | 0 <= i < |c.entries| ensures name(c.entries[i]) == OwnNamer(c)(c.entries[i]) {
        NamesAgree(chunks, upto - 1, c.entries[i]);
      }
      assert ChunkFinds(c) == FoundAs(c.entries, name);
    }
  }

  /**
   The whole listing: nothing lost, nothing added, names ascending, for every
   chunking and any number of cores.
   */
  method Sorted(chunks: seq<Chunk>, cores: nat) returns (names: seq<seq<byte>>, entries: seq<Listed>)
    requires ReadInOrder(chunks) && cores > 0
    ensures names == Buffers(chunks) && Ordered(entries, Namer(names))
    ensures multiset(FoundAs(entries, Namer(names))) == multiset(AllFinds(chunks))
  {
    names := Buffers(chunks);
    var name := Namer(names);
    FindsAre(chunks, |chunks|);
    assert chunks[..|chunks|] == chunks && Entries(chunks)[..|chunks|] == Entries(chunks);
    if |chunks| <= 1 {
      entries := SortByName(Concat(Entries(chunks)), name);
      LoneOrdered(chunks);
    } else {
      var each := SortEach(chunks);
      EachSorted(chunks, each);
      entries := Merge(each, cores, name);
    }
    SameFinds(entries, Concat(Entries(chunks)), name);
  }

  method SortEach(chunks: seq<Chunk>) returns (each: seq<seq<Listed>>)
    ensures |each| == |chunks| && forall i | 0 <= i < |each| :: each[i] == SortChunk(chunks[i]).entries
  {
    each := [];
    for k := 0 to |chunks|
      invariant |each| == k
      invariant forall i | 0 <= i < k :: each[i] == SortChunk(chunks[i]).entries
    {
      each := each + [SortChunk(chunks[k]).entries];
    }
  }

  lemma {:induction false} LoneOrdered(chunks: seq<Chunk>)
    requires ReadInOrder(chunks) && |chunks| <= 1
    ensures var name := Namer(Buffers(chunks)); Ordered(SortByName(Concat(Entries(chunks)), name), name)
  {
    var name, all := Namer(Buffers(chunks)), Concat(Entries(chunks));
    if |chunks| == 1 {
      assert all == Concat<Listed>([]) + chunks[0].entries == chunks[0].entries;
      forall e | e in all ensures e.prefix == Prefix(name(e)) {
        NamesAgree(chunks, 0, e);
      }
    }
    SortOrders(all, name);
  }

  lemma {:induction false} EachSorted(chunks: seq<Chunk>, each: seq<seq<Listed>>)
    requires ReadInOrder(chunks) && chunks != [] && |each| == |chunks|
    requires forall i | 0 <= i < |each| :: each[i] == SortChunk(chunks[i]).entries
    ensures Mergeable(each, Namer(Buffers(chunks))) && each[0] != []
    ensures multiset(Concat(each)) == multiset(Concat(Entries(chunks)))
  {
    forall k | 0 <= k < |chunks|
      ensures Ordered(each[k], Namer(Buffers(chunks))) && Prefixed(each[k], Namer(Buffers(chunks)))
      ensures multiset(each[k]) == multiset(Entries(chunks)[k])
    {
      SortedChunk(chunks, k);
    }
    assert |multiset(each[0])| == |multiset(chunks[0].entries)|;
    ConcatSameBags(each, Entries(chunks));
  }
}
