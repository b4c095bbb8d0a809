/** Induction along a run, whatever its states are. */
module Runs {
  /** What holds at state m and is kept by every later step holds from there on. */
  lemma {:induction false} Throughout<S>(inv: S -> bool, run: seq<S>, m: nat, n: nat)
    requires m <= n < |run| && inv(run[m])
    requires forall i :: m <= i < |run| - 1 && inv(run[i]) ==> inv(run[i + 1])
    ensures inv(run[n])
  {
    if m < n {
      Throughout(inv, run, m, n - 1);
      assert inv(run[n - 1]);
    }
  }

  /** A flag that is down at first and goes up exactly at the marked steps is up once some step was marked. */
  lemma {:induction false} FlagOfMarks(flags: seq<bool>, marks: seq<bool>, n: nat)
    requires |flags| == |marks| + 1 && n <= |marks| && !flags[0]
    requires forall i :: 0 <= i < |marks| ==> flags[i + 1] == (flags[i] || marks[i])
    ensures flags[n] <==> exists i :: 0 <= i < n && marks[i]
  {
    if n > 0 {
      FlagOfMarks(flags, marks, n - 1);
      assert flags[n] == (flags[n - 1] || marks[n - 1]);
    }
  }

  function Count(flags: seq<bool>): nat {
    if flags == [] then 0 else Count(flags[..|flags| - 1]) + (if flags[|flags| - 1] then 1 else 0)
  }

  /** A number that goes up by one exactly at the marked steps has gone up by their number. */
  lemma {:induction false} Tally(counts: seq<int>, marks: seq<bool>, m: nat, n: nat)
    requires m <= n <= |marks| && |counts| == |marks| + 1
    requires forall i :: m <= i < n ==> counts[i + 1] == counts[i] + if marks[i] then 1 else 0
    ensures counts[n] == counts[m] + Count(marks[m..n])
  {
    if m < n {
      Tally(counts, marks, m, n - 1);
      assert marks[m..n][..n - m - 1] == marks[m..n - 1];
      assert counts[n] == counts[n - 1] + if marks[n - 1] then 1 else 0;
    }
  }
}
