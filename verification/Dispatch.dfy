/**
 A table's command over all its paths (on_file.rs): the paths split into argument
 lists, each list one invocation, the invocations run by the pool.
 */
module Dispatch {
  import opened Packing
  import Pool

  /** What each invocation does with its list of arguments. */
  function Jobs<T>(runs: seq<seq<T>>, run: seq<T> -> Pool.Outcome): (jobs: seq<Pool.Outcome>)
    ensures |jobs| == |runs|
  {
    seq(|runs|, i requires 0 <= i < |runs| => run(runs[i]))
  }

  /** Argument `k` of all is carried by invocation `i`. */
  predicate Carries<T>(runs: seq<seq<T>>, k: nat, i: nat) {
    i < |runs| && Start(runs, i) <= k < Start(runs, i) + |runs[i]|
  }

  lemma {:induction false} StartsGrow<T>(runs: seq<seq<T>>, i: nat, j: nat)
    requires i < j <= |runs|
    ensures Start(runs, i) + |runs[i]| <= Start(runs, j)
    decreases j
  {
    assert runs[..j][..j - 1] == runs[..j - 1];
    if i < j - 1 {
      StartsGrow(runs, i, j - 1);
    }
  }

  lemma {:induction false} SomeCarries<T>(runs: seq<seq<T>>, k: nat, n: nat) returns (i: nat)
    requires n <= |runs| && k < Start(runs, n)
    ensures Carries(runs, k, i)
    decreases n
  {
    assert runs[..n][..n - 1] == runs[..n - 1];
    if k < Start(runs, n - 1) {
      i := SomeCarries(runs, k, n - 1);
    } else {
      i := n - 1;
    }
  }

  /** Every argument is carried by one invocation and no other. */
  lemma {:induction false} CarriedOnce<T>(runs: seq<seq<T>>, args: seq<T>, k: nat) returns (i: nat)
    requires Concat(runs) == args && k < |args|
    ensures Carries(runs, k, i) && runs[i][k - Start(runs, i)] == args[k]
    ensures forall j: nat | Carries(runs, k, j) :: j == i
  {
    assert runs[..|runs|] == runs;
    i := SomeCarries(runs, k, |runs|);
    RunIsSlice(runs, args, i);
    forall j: nat | Carries(runs, k, j) ensures j == i {
      if i < j {
        StartsGrow(runs, i, j);
      } else if j < i {
        StartsGrow(runs, j, i);
      }
    }
  }

  /** Argument `k` went to one invocation, which succeeded, and all it printed
      reached the sink, once and in order. */
  ghost predicate Served<T>(runs: seq<seq<T>>, run: seq<T> -> Pool.Outcome, args: seq<T>, k: nat, s: Pool.State) {
    k < |args| ==> exists i: nat ::
      && Carries(runs, k, i) && runs[i][k - Start(runs, i)] == args[k]
      && (forall j: nat | Carries(runs, k, j) :: j == i)
      && run(runs[i]).failure.None? && Pool.Of(s.sunk, i) == run(runs[i]).chunks
  }

  /**
   However the paths were split and however the threads interleaved: a run that
   ends without an error gave every path to exactly one invocation, which
   succeeded and whose rows all arrived in order; and it ends so exactly when no
   invocation fails.
   */
  lemma {:induction false} EveryPathServed<T>(args: seq<T>, runs: seq<seq<T>>, run: seq<T> -> Pool.Outcome,
      c: Pool.Config,
      s: Pool.State)
    requires Concat(runs) == args && c.jobs == Jobs(runs, run) && c.limit > 0
    requires Pool.Reachable(c, s) && Pool.Ended(s)
    ensures Pool.Result(s).None? <==> forall i | 0 <= i < |runs| :: run(runs[i]).failure.None?
    ensures Pool.Result(s).None? ==> forall k: nat :: Served(runs, run, args, k, s)
  {
    Pool.OkMeansAllDelivered(c, s);
    assert forall i | 0 <= i < |runs| :: c.jobs[i] == run(runs[i]);
    if Pool.Result(s).None? {
      forall k: nat ensures Served(runs, run, args, k, s) {
        if k < |args| {
          var i := CarriedOnce(runs, args, k);
          assert c.jobs[i] == run(runs[i]);
        }
      }
    }
  }
}
