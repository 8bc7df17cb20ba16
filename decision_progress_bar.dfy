/**
 * The step bar shown during a scenario: one status per step, worked out
 * from the 1-based number of the step the player is on. Steps before it
 * are completed, the step itself is current, the steps after it are upcoming.
 */
module DecisionProgressBar {

  datatype Status = Completed | Current | Upcoming

  /** A step of the bar; only its label (`text` here) is shown. */
  datatype Step = Step(text: string)

  /** The steps used when none are given: three decisions and the quiz. */
  const DefaultSteps: seq<Step> := [Step("Decision 1"), Step("Decision 2"), Step("Decision 3"), Step("MCQ")]

  /** The step number used when none is given. */
  const DefaultCurrentStep: int := 1

  /** The if/else chain for the step at `index` (0-based) against the 1-based `currentStep`. */
  function StepStatus(index: nat, currentStep: int): Status
  {
    if index < currentStep - 1 then Completed
    else if index == currentStep - 1 then Current
    else Upcoming
  }

  /** `steps.map((step, index) => ...)`: the status of every step, in order. */
  function Statuses(steps: seq<Step>, currentStep: int): (statuses: seq<Status>)
    ensures |statuses| == |steps|
  {
    seq(|steps|, index requires 0 <= index < |steps| => StepStatus(index, currentStep))
  }

  /** Position of a status along the bar: completed, then current, then upcoming. */
  function Stage(s: Status): nat
  {
    match s
    case Completed => 0
    case Current => 1
    case Upcoming => 2
  }

  /** How many entries of statuses are s. */
  function Count(statuses: seq<Status>, s: Status): nat
  {
    if |statuses| == 0 then 0
    else Count(statuses[..|statuses| - 1], s) + if statuses[|statuses| - 1] == s then 1 else 0
  }

  /** `min(max(x, 0), n)`. */
  function Within(x: int, n: nat): nat
  {
    if x <= 0 then 0 else if x >= n then n else x
  }

  /**
   * Each step's status against the 1-based current step: completed strictly
   * before it, current exactly at it, upcoming after it.
   */
  lemma StatusesSpec(steps: seq<Step>, currentStep: int)
    ensures forall index :: 0 <= index < |steps| ==>
      (Statuses(steps, currentStep)[index] == Completed <==> index + 1 < currentStep)
    ensures forall index :: 0 <= index < |steps| ==>
      (Statuses(steps, currentStep)[index] == Current <==> index + 1 == currentStep)
    ensures forall index :: 0 <= index < |steps| ==>
      (Statuses(steps, currentStep)[index] == Upcoming <==> index + 1 > currentStep)
  {
  }

  /** Statuses never go back along the bar: all completed steps, then the current one, then the upcoming ones. */
  lemma StatusesMonotone(steps: seq<Step>, currentStep: int)
    ensures forall i, j :: 0 <= i < j < |steps| ==>
      Stage(Statuses(steps, currentStep)[i]) <= Stage(Statuses(steps, currentStep)[j])
  {
  }

  /** The counts of completed and current steps among the first n steps. */
  lemma {:induction false} CountPrefix(steps: seq<Step>, currentStep: int, n: nat)
    requires n <= |steps|
    ensures Count(Statuses(steps, currentStep)[..n], Completed) == Within(currentStep - 1, n)
    ensures Count(Statuses(steps, currentStep)[..n], Current) == if 1 <= currentStep <= n then 1 else 0
    ensures Count(Statuses(steps, currentStep)[..n], Upcoming)
      == n - Within(currentStep - 1, n) - (if 1 <= currentStep <= n then 1 else 0)
  {
    if n > 0 {
      var statuses := Statuses(steps, currentStep);
      CountPrefix(steps, currentStep, n - 1);
      assert statuses[..n][..n - 1] == statuses[..n - 1];
      assert statuses[..n][n - 1] == StepStatus(n - 1, currentStep);
    }
  }

  /**
   * Exactly one step is current when the current step number names a step
   * (1 to the number of steps) and none otherwise; min(max(currentStep - 1, 0),
   * number of steps) steps are completed, and the rest are upcoming.
   */
  lemma StatusCounts(steps: seq<Step>, currentStep: int)
    ensures Count(Statuses(steps, currentStep), Current) == 1 <==> 1 <= currentStep <= |steps|
    ensures Count(Statuses(steps, currentStep), Current) <= 1
    ensures Count(Statuses(steps, currentStep), Completed) == Within(currentStep - 1, |steps|)
    ensures Count(Statuses(steps, currentStep), Completed) + Count(Statuses(steps, currentStep), Current)
      + Count(Statuses(steps, currentStep), Upcoming) == |steps|
  {
    CountPrefix(steps, currentStep, |steps|);
    assert Statuses(steps, currentStep)[..|steps|] == Statuses(steps, currentStep);
  }

  /** With the default props the first decision is current and every later step is upcoming. */
  lemma DefaultBar()
    ensures Statuses(DefaultSteps, DefaultCurrentStep) == [Current, Upcoming, Upcoming, Upcoming]
  {
  }
}
