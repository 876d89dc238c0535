/**
 * The step flow shared by the interactive commands: which listed step is
 * completed, active or pending, and the automatic exit once a flow reaches
 * its `done` or `error` step.
 */
module KoharuStepFlow {
  import opened Common

  datatype StepStatus = Completed | Active | Pending

  /** `Array.prototype.indexOf`: the first position of `x`, or -1. */
  function IndexOf<T(==)>(xs: seq<T>, x: T): (r: int)
    ensures -1 <= r < |xs|
    ensures r == -1 <==> x !in xs
    ensures r >= 0 ==> xs[r] == x && forall j :: 0 <= j < r ==> xs[j] != x
  {
    if xs == [] then -1
    else if xs[0] == x then 0
    else
      var r := IndexOf(xs[1..], x);
      if r == -1 then -1 else r + 1
  }

  /** A step after the optional normalisation. */
  function Normal<T>(normalize: Option<T -> T>, s: T): T {
    match normalize
    case None => s
    case Some(f) => f(s)
  }

  /**
   * The status shown for `stepId` while the flow is at `current`: all
   * completed when the current step is not an input step; otherwise by
   * comparing first positions in `inputSteps`, after normalising both.
   */
  function GetStepStatus<T(==)>(inputSteps: seq<T>, normalize: Option<T -> T>, current: T, stepId: T): (r: StepStatus)
    ensures Normal(normalize, current) !in inputSteps ==> r == Completed
    ensures Normal(normalize, current) in inputSteps ==>
      (r == Active <==> Normal(normalize, stepId) == Normal(normalize, current))
    ensures Normal(normalize, current) in inputSteps && Normal(normalize, stepId) !in inputSteps ==> r == Completed
    ensures Normal(normalize, current) in inputSteps && Normal(normalize, stepId) in inputSteps ==>
      (r == Pending <==> IndexOf(inputSteps, Normal(normalize, stepId)) > IndexOf(inputSteps, Normal(normalize, current)))
  {
    var currentIndex := IndexOf(inputSteps, Normal(normalize, current));
    var stepIndex := IndexOf(inputSteps, Normal(normalize, stepId));
    if currentIndex == -1 then Completed
    else if stepIndex < currentIndex then Completed
    else if stepIndex == currentIndex then Active
    else Pending
  }

  /**
   * Over a list of distinct steps that normalisation leaves alone, the
   * step the flow is at is the one active step: those before it are
   * completed and those after it pending.
   */
  lemma OneActive<T>(inputSteps: seq<T>, normalize: Option<T -> T>, current: T, k: nat)
    requires forall i, j :: 0 <= i < j < |inputSteps| ==> inputSteps[i] != inputSteps[j]
    requires forall i :: 0 <= i < |inputSteps| ==> Normal(normalize, inputSteps[i]) == inputSteps[i]
    requires k < |inputSteps| && Normal(normalize, current) == inputSteps[k]
    ensures forall i :: 0 <= i < |inputSteps| ==>
      GetStepStatus(inputSteps, normalize, current, inputSteps[i]) == (if i < k then Completed else if i == k then Active else Pending)
  {
    forall i | 0 <= i < |inputSteps| ensures IndexOf(inputSteps, inputSteps[i]) == i {
      FirstIndexOfDistinct(inputSteps, i);
    }
  }

  lemma {:induction false} FirstIndexOfDistinct<T>(xs: seq<T>, i: nat)
    requires forall a, b :: 0 <= a < b < |xs| ==> xs[a] != xs[b]
    requires i < |xs|
    ensures IndexOf(xs, xs[i]) == i
  {
    if i > 0 {
      assert xs[0] != xs[i];
      assert xs[1..][i - 1] == xs[i];
      FirstIndexOfDistinct(xs[1..], i - 1);
    }
  }

  /** The steps the flow leaves on its own. */
  predicate Terminal(step: string) {
    step == "done" || step == "error"
  }

  /** A flow's current step and its pending automatic exit. */
  class StepFlow {
    const inputSteps: seq<string>
    const showReturnHint: bool
    var step: string
    /** The scheduled `onComplete` call and the success flag it passes, if any. */
    var timer: Option<bool>
    /** The success flags `onComplete` has been called with, in order. */
    var completions: seq<bool>

    /** A flow starting at a terminal step schedules its exit at once, as the effect runs on mount. */
    constructor(inputSteps: seq<string>, initialStep: string, showReturnHint: bool)
      ensures this.inputSteps == inputSteps && this.showReturnHint == showReturnHint
      ensures step == initialStep && completions == []
      ensures timer == (if Terminal(initialStep) && !showReturnHint then Some(initialStep == "done") else None)
    {
      this.inputSteps := inputSteps;
      this.showReturnHint := showReturnHint;
      step := initialStep;
      completions := [];
      timer := if Terminal(initialStep) && !showReturnHint then Some(initialStep == "done") else None;
    }

    /**
     * `setStep`: moving to another step cancels a pending exit, then
     * schedules one when the new step is terminal and no return prompt is
     * shown; the exit reports success exactly for `done`. Setting the same
     * step again changes nothing.
     */
    method SetStep(next: string)
      modifies this
      ensures step == next && completions == old(completions)
      ensures next == old(step) ==> timer == old(timer)
      ensures next != old(step) ==> timer == (if Terminal(next) && !showReturnHint then Some(next == "done") else None)
    {
      if next == step {
        return;
      }
      step := next;
      timer := None;
      if (step == "done" || step == "error") && !showReturnHint {
        timer := Some(step == "done");
      }
    }

    /** The delay elapsed: the scheduled exit, if any, runs once. */
    method TimerFires()
      modifies this
      ensures step == old(step) && timer == None
      ensures completions == old(completions) + (if old(timer).Some? then [old(timer).value] else [])
    {
      if timer.Some? {
        completions := completions + [timer.value];
        timer := None;
      }
    }

    predicate PressAnyKeyActive()
      reads this
    {
      Terminal(step) && showReturnHint
    }

    /** A key press at a terminal step with the prompt shown finishes the flow, reporting success for `done`. */
    method KeyPressed()
      modifies this
      ensures step == old(step) && timer == old(timer)
      ensures completions == old(completions) + (if old(PressAnyKeyActive()) then [step == "done"] else [])
    {
      if PressAnyKeyActive() {
        completions := completions + [step == "done"];
      }
    }
  }
}
