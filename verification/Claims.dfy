/**
 Matching the wanted rows of a table to its stored rows (the first half of
 `reconcile_rows` in db.rs): the n-th wanted row of an identity claims the n-th
 stored row of that identity, whether the identity is a key or the whole row.
 */
module Claims {
  import opened Wrappers

  /** How many of the first `n` keys are `k`. */
  function Count<K(==)>(keys: seq<K>, n: nat, k: K): (c: nat)
    requires n <= |keys|
    ensures c <= n
  {
    if n == 0 then 0 else Count(keys, n - 1, k) + if keys[n - 1] == k then 1 else 0
  }

  lemma {:induction false} CountMonotone<K>(keys: seq<K>, m: nat, n: nat, k: K)
    requires m <= n <= |keys|
    ensures Count(keys, m, k) <= Count(keys, n, k)
    ensures m < n && keys[m] == k ==> Count(keys, m, k) < Count(keys, n, k)
    decreases n
  {
    if m < n {
      CountMonotone(keys, m, n - 1, k);
    }
  }

  /** Where the occurrence number `n` of `k` past `from` sits. */
  function NthOf<K(==)>(keys: seq<K>, k: K, n: nat, from: nat): (at: Option<nat>)
    requires from <= |keys|
    ensures at.Some? ==>
      from <= at.value < |keys| && keys[at.value] == k && Count(keys, at.value, k) == Count(keys, from, k) + n
    ensures at.None? ==> Count(keys, |keys|, k) <= Count(keys, from, k) + n
    decreases |keys| - from
  {
    if from == |keys| then None
    else if keys[from] != k then NthOf(keys, k, n, from + 1)
    else if n == 0 then Some(from)
    else NthOf(keys, k, n - 1, from + 1)
  }

  /** The stored row that wanted row `i` claims. */
  function ClaimOf<K(==)>(stored: seq<K>, wanted: seq<K>, i: nat): (at: Option<nat>)
    requires i < |wanted|
    ensures at.Some? ==> at.value < |stored| && stored[at.value] == wanted[i]
    ensures at.Some? ==> Count(stored, at.value, wanted[i]) == Count(wanted, i, wanted[i])
    ensures at.None? ==> Count(stored, |stored|, wanted[i]) <= Count(wanted, i, wanted[i])
  {
    NthOf(stored, wanted[i], Count(wanted, i, wanted[i]), 0)
  }

  function ClaimsOf<K(==)>(stored: seq<K>, wanted: seq<K>): (claims: seq<Option<nat>>)
    ensures |claims| == |wanted|
    ensures forall i | 0 <= i < |wanted| :: claims[i] == ClaimOf(stored, wanted, i)
  {
    seq(|wanted|, i requires 0 <= i < |wanted| => ClaimOf(stored, wanted, i))
  }

  /** A position is the only one with its key and its number of predecessors. */
  lemma {:induction false} CountPins<K>(keys: seq<K>, a: nat, b: nat, k: K)
    requires a < |keys| && b < |keys| && keys[a] == k == keys[b]
    requires Count(keys, a, k) == Count(keys, b, k)
    ensures a == b
  {
    if a < b {
      CountMonotone(keys, a, b, k);
    } else if b < a {
      CountMonotone(keys, b, a, k);
    }
  }

  /** No stored row is claimed twice. */
  lemma {:induction false} ClaimsAreInjective<K>(stored: seq<K>, wanted: seq<K>, i: nat, j: nat)
    requires i < |wanted| && j < |wanted| && ClaimOf(stored, wanted, i).Some?
    requires ClaimOf(stored, wanted, i) == ClaimOf(stored, wanted, j)
    ensures i == j
  {
    CountPins(wanted, i, j, wanted[i]);
  }

  /** A stored row is claimed when enough wanted rows share its identity. */
  lemma {:induction false} EnoughClaim<K>(stored: seq<K>, wanted: seq<K>, at: nat)
    requires at < |stored| && Count(stored, at, stored[at]) < Count(wanted, |wanted|, stored[at])
    ensures exists j | 0 <= j < |wanted| :: ClaimOf(stored, wanted, j) == Some(at)
  {
    var k := stored[at];
    CountMonotone(stored, at, |stored|, k);
    var j := NthOf(wanted, k, Count(stored, at, k), 0);
    var c := ClaimOf(stored, wanted, j.value);
    CountPins(stored, at, c.value, k);
  }

  /** Claiming is maximal: while a wanted row goes without, no stored row of its
      identity is left over. */
  lemma {:induction false} LeftoversNeverMatch<K>(stored: seq<K>, wanted: seq<K>, i: nat, at: nat)
    requires i < |wanted| && at < |stored| && stored[at] == wanted[i]
    requires ClaimOf(stored, wanted, i).None?
    ensures exists j | 0 <= j < |wanted| :: ClaimOf(stored, wanted, j) == Some(at)
  {
    CountMonotone(stored, at, |stored|, wanted[i]);
    CountMonotone(wanted, i, |wanted|, wanted[i]);
    EnoughClaim(stored, wanted, at);
  }

  /** How often a key occurs is how often it is in the bag. */
  lemma {:induction false} CountIsBag<K>(keys: seq<K>, n: nat, k: K)
    requires n <= |keys|
    ensures Count(keys, n, k) == multiset(keys[..n])[k]
  {
    if n > 0 {
      assert keys[..n] == keys[..n - 1] + [keys[n - 1]];
      CountIsBag(keys, n - 1, k);
    }
  }

  /** Two identities that tell the same rows apart count them alike. */
  lemma {:induction false} CountAlike<K, L>(keys: seq<K>, others: seq<L>, n: nat, k: K, l: L)
    requires |keys| == |others| && n <= |keys|
    requires forall i | 0 <= i < |keys| :: keys[i] == k <==> others[i] == l
    ensures Count(keys, n, k) == Count(others, n, l)
  {
    if n > 0 {
      CountAlike(keys, others, n - 1, k, l);
    }
  }

  /** The stack of unclaimed positions of a key. */
  function StackOf<K(==)>(unclaimed: map<K, seq<nat>>, k: K): seq<nat> {
    if k in unclaimed then unclaimed[k] else []
  }

  /** `stack` holds the last `height` positions of `k`, the earliest on top. */
  ghost predicate Stacked<K>(stack: seq<nat>, keys: seq<K>, k: K, height: nat) {
    && |stack| == height <= Count(keys, |keys|, k)
    && forall j | 0 <= j < height ::
      && stack[j] < |keys| && keys[stack[j]] == k
      && Count(keys, stack[j], k) == Count(keys, |keys|, k) - 1 - j
  }

  ghost function Left<K>(stored: seq<K>, wanted: seq<K>, i: nat, k: K): nat
    requires i <= |wanted|
  {
    var total, taken := Count(stored, |stored|, k), Count(wanted, i, k);
    if total < taken then 0 else total - taken
  }

  lemma {:induction false} PushIsStacked<K>(stack: seq<nat>, keys: seq<K>, index: nat)
    requires index < |keys| && Count(keys, index + 1, keys[index]) <= Count(keys, |keys|, keys[index])
    requires Stacked(stack, keys, keys[index], Count(keys, |keys|, keys[index]) - Count(keys, index + 1, keys[index]))
    ensures Stacked(stack + [index], keys, keys[index],
      Count(keys, |keys|, keys[index]) - Count(keys, index, keys[index]))
  {
  }

  lemma {:induction false} TopIsClaim<K>(stack: seq<nat>, stored: seq<K>, wanted: seq<K>, i: nat)
    requires i < |wanted| && Stacked(stack, stored, wanted[i], Left(stored, wanted, i, wanted[i]))
    ensures ClaimOf(stored, wanted, i) == if stack == [] then None else Some(stack[|stack| - 1])
    ensures stack != [] ==> Stacked(stack[..|stack| - 1], stored, wanted[i], Left(stored, wanted, i + 1, wanted[i]))
    ensures stack == [] ==> Left(stored, wanted, i + 1, wanted[i]) == 0
  {
    var k, c := wanted[i], ClaimOf(stored, wanted, i);
    if c.Some? {
      CountMonotone(stored, c.value, |stored|, k);
      CountPins(stored, stack[|stack| - 1], c.value, k);
    }
  }

  /** From `index` on, each key's positions are stacked. */
  ghost predicate Piled<K(!new)>(unclaimed: map<K, seq<nat>>, stored: seq<K>, index: nat)
    requires index <= |stored|
  {
    forall k :: PiledAt(unclaimed, stored, k, index)
  }

  ghost predicate PiledAt<K>(unclaimed: map<K, seq<nat>>, stored: seq<K>, k: K, index: nat)
    requires index <= |stored|
  {
    Count(stored, index, k) <= Count(stored, |stored|, k) &&
    Stacked(StackOf(unclaimed, k), stored, k, Count(stored, |stored|, k) - Count(stored, index, k))
  }

  lemma {:induction false} PilesUp<K(!new)>(unclaimed: map<K, seq<nat>>, stored: seq<K>, index: nat)
    requires index < |stored| && Piled(unclaimed, stored, index + 1)
    ensures Piled(unclaimed[stored[index] := StackOf(unclaimed, stored[index]) + [index]], stored, index)
  {
    var top := stored[index];
    var piled := unclaimed[top := StackOf(unclaimed, top) + [index]];
    forall k ensures PiledAt(piled, stored, k, index) {
      assert PiledAt(unclaimed, stored, k, index + 1);
      if k == top {
        PushIsStacked(StackOf(unclaimed, k), stored, index);
      }
    }
  }

  /** The positions of each key, stacked back to front. */
  method Pile<K(==,!new)>(stored: seq<K>) returns (unclaimed: map<K, seq<nat>>)
    ensures Piled(unclaimed, stored, 0)
  {
    unclaimed := map[];
    var index: nat := |stored|;
    while index > 0
      invariant index <= |stored| && Piled(unclaimed, stored, index)
    {
      index := index - 1;
      var k := stored[index];
      PilesUp(unclaimed, stored, index);
      unclaimed := unclaimed[k := StackOf(unclaimed, k) + [index]];
    }
  }

  ghost predicate AllStacked<K(!new)>(unclaimed: map<K, seq<nat>>, stored: seq<K>, wanted: seq<K>, i: nat)
    requires i <= |wanted|
  {
    forall k :: Stacked(StackOf(unclaimed, k), stored, k, Left(stored, wanted, i, k))
  }

  lemma {:induction false} PiledIsStacked<K(!new)>(unclaimed: map<K, seq<nat>>, stored: seq<K>, wanted: seq<K>)
    requires Piled(unclaimed, stored, 0)
    ensures AllStacked(unclaimed, stored, wanted, 0)
  {
    forall k ensures Stacked(StackOf(unclaimed, k), stored, k, Left(stored, wanted, 0, k)) {
      assert PiledAt(unclaimed, stored, k, 0);
    }
  }

  /** The map once wanted row `i` has popped its stack. */
  function Popped<K(==)>(unclaimed: map<K, seq<nat>>, k: K): map<K, seq<nat>> {
    var stack := StackOf(unclaimed, k);
    if stack == [] then unclaimed else unclaimed[k := stack[..|stack| - 1]]
  }

  lemma {:induction false} PopKeepsStacked<K(!new)>(unclaimed: map<K, seq<nat>>, stored: seq<K>, wanted: seq<K>, i: nat)
    requires i < |wanted| && AllStacked(unclaimed, stored, wanted, i)
    ensures AllStacked(Popped(unclaimed, wanted[i]), stored, wanted, i + 1)
    ensures var stack := StackOf(unclaimed, wanted[i]);
      ClaimOf(stored, wanted, i) == if stack == [] then None else Some(stack[|stack| - 1])
  {
    var k := wanted[i];
    TopIsClaim(StackOf(unclaimed, k), stored, wanted, i);
    forall other ensures Stacked(StackOf(Popped(unclaimed, k), other), stored, other,
      Left(stored, wanted, i + 1, other)) {
      if other != k {
        assert StackOf(Popped(unclaimed, k), other) == StackOf(unclaimed, other);
        assert Stacked(StackOf(unclaimed, other), stored, other, Left(stored, wanted, i, other));
      }
    }
  }

  /** Each wanted row in turn pops the earliest stored row left of its key. */
  method Claim<K(==,!new)>(stored: seq<K>, wanted: seq<K>) returns (claims: seq<Option<nat>>)
    ensures claims == ClaimsOf(stored, wanted)
  {
    var unclaimed := Pile(stored);
    PiledIsStacked(unclaimed, stored, wanted);
    claims := [];
    for i := 0 to |wanted|
      invariant claims == ClaimsOf(stored, wanted)[..i]
      invariant AllStacked(unclaimed, stored, wanted, i)
    {
      PopKeepsStacked(unclaimed, stored, wanted, i);
      var stack := StackOf(unclaimed, wanted[i]);
      claims := claims + [if stack == [] then None else Some(stack[|stack| - 1])];
      unclaimed := Popped(unclaimed, wanted[i]);
    }
  }
}
