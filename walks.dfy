/** One walk of the move generator, abstracted from the board.

    The generator tries the offsets of one vector with one sign in order. Each
    try ends in one of four decisions: stop the walk (`break`), skip this
    offset (`continue`), record its target, or record its target and stop. A
    walk is described here by the decision of every try and the target every
    try would record; board-specific facts enter only through the hypotheses
    of `BlockedWalk` and `FreeWalk`. */
module Walks {

  /** The decision one try of the offset loop takes. */
  datatype Step = Break | Skip | Record | RecordAndBreak
  {
    predicate Continues() { this == Skip || this == Record }
    predicate Records() { this == Record || this == RecordAndBreak }
  }

  /** Every try before the `k`-th continued: the walk gets to try `k`. */
  predicate Reached(steps: seq<Step>, k: int)
    requires 0 <= k <= |steps|
  {
    k == 0 || (Reached(steps, k - 1) && steps[k - 1].Continues())
  }

  /** The targets the first `k` tries record. */
  function Recorded(steps: seq<Step>, targets: seq<int>, k: int): set<int>
    requires |targets| == |steps| && 0 <= k <= |steps|
  {
    if k == 0 then {}
    else Recorded(steps, targets, k - 1)
         + if Reached(steps, k - 1) && steps[k - 1].Records() then {targets[k - 1]} else {}
  }

  /** The first `m` entries of `flags` hold. */
  predicate AllBefore(flags: seq<bool>, m: int)
    requires 0 <= m <= |flags|
  {
    forall j :: 0 <= j < m ==> flags[j]
  }

  /** The walk gets to try `k` exactly when every earlier try continued. */
  lemma {:induction false} ReachedMeansContinued(steps: seq<Step>, k: int)
    requires 0 <= k <= |steps|
    ensures Reached(steps, k) <==> forall j :: 0 <= j < k ==> steps[j].Continues()
  {
    if k > 0 {
      ReachedMeansContinued(steps, k - 1);
    }
  }

  /** A target is recorded exactly when some try the walk gets to records it. */
  lemma {:induction false} RecordedMember(steps: seq<Step>, targets: seq<int>, k: int, t: int)
    requires |targets| == |steps| && 0 <= k <= |steps|
    ensures t in Recorded(steps, targets, k) <==>
      exists j :: 0 <= j < k && Reached(steps, j) && steps[j].Records() && t == targets[j]
  {
    if k > 0 {
      RecordedMember(steps, targets, k - 1, t);
    }
  }

  /** Once a walk has stopped, later tries record nothing. */
  lemma {:induction false} WalkStopped(steps: seq<Step>, targets: seq<int>, k: int, m: int)
    requires |targets| == |steps| && 0 <= k <= m <= |steps|
    requires !Reached(steps, k)
    ensures !Reached(steps, m)
    ensures Recorded(steps, targets, m) == Recorded(steps, targets, k)
  {
    if m > k {
      WalkStopped(steps, targets, k, m - 1);
    }
  }

  /** A walk that stops at try `k` records nothing after it. */
  lemma WalkEnds(steps: seq<Step>, targets: seq<int>, k: int)
    requires |targets| == |steps| && 0 <= k < |steps|
    requires Reached(steps, k) && !steps[k].Continues()
    ensures Recorded(steps, targets, |steps|) ==
      Recorded(steps, targets, k) + if steps[k].Records() then {targets[k]} else {}
  {
    WalkStopped(steps, targets, k + 1, |steps|);
  }

  /** A try that skips leaves the walk going, with nothing recorded. */
  lemma WalkSkips(steps: seq<Step>, targets: seq<int>, k: int)
    requires |targets| == |steps| && 0 <= k < |steps|
    requires Reached(steps, k) && steps[k] == Skip
    ensures Reached(steps, k + 1)
    ensures Recorded(steps, targets, k + 1) == Recorded(steps, targets, k)
  {
  }

  /** A try that records and goes on adds its target. */
  lemma WalkRecords(steps: seq<Step>, targets: seq<int>, k: int)
    requires |targets| == |steps| && 0 <= k < |steps|
    requires Reached(steps, k) && steps[k] == Record
    ensures Reached(steps, k + 1)
    ensures Recorded(steps, targets, k + 1) == Recorded(steps, targets, k) + {targets[k]}
  {
  }

  /** A walk that goes on exactly over the `vacant` tries and records exactly
      the `open` ones records the open targets up to and including the first
      try that is not vacant, and nothing after it; an open try records its
      entry of `raws`. */
  lemma {:induction false} BlockedWalk(steps: seq<Step>, targets: seq<int>, raws: seq<int>, vacant: seq<bool>, open: seq<bool>, k: int, t: int)
    requires |targets| == |steps| && |raws| == |steps| && |vacant| == |steps| && |open| == |steps| && 0 <= k <= |steps|
    requires forall i :: 0 <= i < |steps| ==> (steps[i].Continues() <==> vacant[i])
    requires forall i :: 0 <= i < |steps| ==> (steps[i].Records() <==> open[i])
    requires forall i :: 0 <= i < |steps| ==> open[i] ==> targets[i] == raws[i]
    ensures Reached(steps, k) <==> AllBefore(vacant, k)
    ensures t in Recorded(steps, targets, k) <==>
      exists m :: 0 <= m < k && AllBefore(vacant, m) && open[m] && t == raws[m]
  {
    if k > 0 {
      BlockedWalk(steps, targets, raws, vacant, open, k - 1, t);
      assert AllBefore(vacant, k) <==> AllBefore(vacant, k - 1) && vacant[k - 1];
    }
  }

  /** A walk whose every try continues records exactly the `open` targets. */
  lemma {:induction false} FreeWalk(steps: seq<Step>, targets: seq<int>, raws: seq<int>, open: seq<bool>, k: int, t: int)
    requires |targets| == |steps| && |raws| == |steps| && |open| == |steps| && 0 <= k <= |steps|
    requires forall i :: 0 <= i < |steps| ==> steps[i].Continues()
    requires forall i :: 0 <= i < |steps| ==> (steps[i].Records() <==> open[i])
    requires forall i :: 0 <= i < |steps| ==> open[i] ==> targets[i] == raws[i]
    ensures Reached(steps, k)
    ensures t in Recorded(steps, targets, k) <==> exists m :: 0 <= m < k && open[m] && t == raws[m]
  {
    if k > 0 {
      FreeWalk(steps, targets, raws, open, k - 1, t);
    }
  }

  /** The union of the first `n` sets. */
  function Union(sets: seq<set<int>>, n: int): set<int>
    requires 0 <= n <= |sets|
  {
    if n == 0 then {} else Union(sets, n - 1) + sets[n - 1]
  }

  lemma {:induction false} UnionMember(sets: seq<set<int>>, n: int, t: int)
    requires 0 <= n <= |sets|
    ensures t in Union(sets, n) <==> exists i :: 0 <= i < n && t in sets[i]
  {
    if n > 0 {
      UnionMember(sets, n - 1, t);
    }
  }

  lemma UnionOfThree(sets: seq<set<int>>)
    requires |sets| == 3
    ensures Union(sets, 3) == sets[0] + sets[1] + sets[2]
  {
    assert Union(sets, 1) == sets[0];
  }
}
