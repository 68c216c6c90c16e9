/**
 * Weighted progress accounting: the TaskManager class of src/core/GameManager.ts.
 *
 * A task of weight w is registered at once (the denominator grows, with a floor
 * of 1) and, when its work settles, successfully or not, the same weight is
 * counted as finished and the progress value is recomputed as
 * clamp01(max(previous, finished / count)).
 */
module TaskAccounting {

  /** Model of MathUtils.clamp01: the nearest value in [0, 1]. */
  function Clamp01(x: real): (r: real)
    ensures 0.0 <= r <= 1.0
    ensures 0.0 <= x <= 1.0 ==> r == x
    ensures x < 0.0 ==> r == 0.0
    ensures 1.0 < x ==> r == 1.0
  {
    if x < 0.0 then 0.0 else if 1.0 < x then 1.0 else x
  }

  function Max(a: real, b: real): (m: real)
    ensures a <= m && b <= m
    ensures m == a || m == b
  {
    if a < b then b else a
  }

  /** The denominator after registering weight w: Math.max(1, count + w). */
  function GrownCount(count: real, w: real): (c: real)
    ensures 1.0 <= c
    ensures count + w <= c
    ensures c == count + w || c == 1.0
  {
    Max(1.0, count + w)
  }

  /** The progress value _finish stores, given the previous value and the new totals. */
  function NextProgress(previous: real, finished: real, count: real): (p: real)
    requires count > 0.0
    ensures 0.0 <= p <= 1.0
    ensures previous <= 1.0 ==> previous <= p
    ensures finished / count <= 1.0 ==> finished / count <= p
    ensures p == 1.0 <==> (1.0 <= previous || count <= finished)
  {
    Clamp01(Max(previous, finished / count))
  }

  /** Total weight of a sequence of weights. */
  function Sum(s: seq<real>): (total: real)
  {
    if s == [] then 0.0 else s[0] + Sum(s[1..])
  }

  /** s with its first occurrence of w removed. */
  function RemoveOne(s: seq<real>, w: real): (r: seq<real>)
    requires w in s
    ensures |r| == |s| - 1
    ensures multiset(r) == multiset(s) - multiset{w}
  {
    if s[0] == w then
      assert s == [s[0]] + s[1..];
      s[1..]
    else
      assert s == [s[0]] + s[1..];
      [s[0]] + RemoveOne(s[1..], w)
  }

  lemma {:induction false} SumAppend(s: seq<real>, w: real)
    ensures Sum(s + [w]) == Sum(s) + w
  {
    if s != [] {
      assert (s + [w])[1..] == s[1..] + [w];
      SumAppend(s[1..], w);
    }
  }

  lemma {:induction false} SumRemoveOne(s: seq<real>, w: real)
    requires w in s
    ensures Sum(s) == w + Sum(RemoveOne(s, w))
  {
    if s[0] != w {
      SumRemoveOne(s[1..], w);
    }
  }

  /**
   * Because of the floor of 1, a single task lighter than 1 never brings
   * progress to 1 on its own, although it is the only task and it has finished.
   */
  lemma LightTaskStaysBelowOne(w: real)
    requires 0.0 < w < 1.0
    ensures NextProgress(0.0, w, GrownCount(0.0, w)) == w && w < 1.0
  {
  }

  /** How the handle of a task settled: its promise resolved, or it threw or rejected. */
  datatype Outcome = Resolved | Rejected

  class TaskManager {
    var taskCount: real
    var taskFinished: real
    var progress: real

    /** Weights registered since the last reset whose tasks have not settled yet. */
    ghost var pending: seq<real>
    /** Every weight registered since the last reset was at least 1. */
    ghost var wholeWeights: bool

    ghost predicate Valid()
      reads this
    {
      && 0.0 <= progress <= 1.0
      && (taskCount == 0.0 || 1.0 <= taskCount)
      && (taskCount == 0.0 ==> taskFinished == 0.0 && progress == 0.0 && pending == [])
      && (wholeWeights ==> taskCount == taskFinished + Sum(pending))
      && (wholeWeights && pending == [] && 0.0 < taskCount ==> progress == 1.0)
    }

    constructor ()
      ensures Valid()
      ensures taskCount == 0.0 && taskFinished == 0.0 && progress == 0.0
      ensures pending == [] && wholeWeights
    {
      taskCount, taskFinished, progress := 0.0, 0.0, 0.0;
      pending, wholeWeights := [], true;
    }

    /** The `progress` getter. */
    function Progress(): (p: real)
      reads this
      requires Valid()
      ensures 0.0 <= p <= 1.0
    {
      progress
    }

    /** `_regist`: grow the denominator by w, with a floor of 1. */
    method Regist(w: real)
      requires Valid()
      modifies this
      ensures Valid()
      ensures taskCount == GrownCount(old(taskCount), w)
      ensures taskFinished == old(taskFinished) && progress == old(progress)
      ensures pending == old(pending) + [w]
      ensures wholeWeights == (old(wholeWeights) && 1.0 <= w)
    {
      SumAppend(pending, w);
      taskCount := Max(1.0, taskCount + w);
      pending := pending + [w];
      wholeWeights := wholeWeights && 1.0 <= w;
    }

    /** `_finish`: count w as finished and recompute progress, never lowering it. */
    method Finish(w: real)
      requires Valid()
      requires w in pending
      modifies this
      ensures Valid()
      ensures taskCount == old(taskCount)
      ensures taskFinished == old(taskFinished) + w
      ensures progress == NextProgress(old(progress), taskFinished, taskCount)
      ensures old(progress) <= progress
      ensures pending == RemoveOne(old(pending), w) && wholeWeights == old(wholeWeights)
      ensures wholeWeights && pending == [] ==> taskFinished == taskCount && progress == 1.0
    {
      SumRemoveOne(pending, w);
      taskFinished := taskFinished + w;
      progress := Clamp01(Max(progress, taskFinished / taskCount));
      pending := RemoveOne(pending, w);
      if wholeWeights && pending == [] {
        assert taskFinished == taskCount;
        assert taskFinished / taskCount == 1.0;
      }
    }

    /**
     * The synchronous part of `task`: the weight is registered at once.
     * The settlement of the handle is `Settle`, which happens later.
     * The weight defaults to 1, as in the source.
     */
    method Task(w: real := 1.0)
      requires Valid()
      modifies this
      ensures Valid()
      ensures taskCount == GrownCount(old(taskCount), w)
      ensures taskFinished == old(taskFinished) && progress == old(progress)
      ensures pending == old(pending) + [w]
      ensures wholeWeights == (old(wholeWeights) && 1.0 <= w)
    {
      Regist(w);
    }

    /**
     * The continuation of `task`: whether the handle resolved or threw, its
     * weight is counted as finished.
     */
    method Settle(w: real, outcome: Outcome)
      requires Valid()
      requires w in pending
      modifies this
      ensures Valid()
      ensures taskCount == old(taskCount)
      ensures taskFinished == old(taskFinished) + w
      ensures progress == NextProgress(old(progress), taskFinished, taskCount)
      ensures old(progress) <= progress
      ensures pending == RemoveOne(old(pending), w) && wholeWeights == old(wholeWeights)
      ensures wholeWeights && pending == [] ==> taskFinished == taskCount && progress == 1.0
    {
      match outcome
      case Resolved =>
        Finish(w);
      case Rejected =>
        Finish(w);
    }

    /** `reset`: zero the counters; nothing is registered afterwards. */
    method Reset()
      modifies this
      ensures Valid()
      ensures taskCount == 0.0 && taskFinished == 0.0 && progress == 0.0
      ensures pending == [] && wholeWeights
    {
      taskCount, taskFinished, progress := 0.0, 0.0, 0.0;
      pending, wholeWeights := [], true;
    }
  }
}
