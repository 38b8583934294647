/**
 * The three progress pills shown at the top of the wizard while it is not
 * finished. Each pill is drawn as active (the current step), completed
 * (a step before the current one) or upcoming (any other step).
 */
module ProgressBar {

  /** One pill of the bar: its step number and its caption. */
  datatype Pill = Pill(id: int, caption: string)

  /** How a pill is drawn; active wins over completed, as in the class selection. */
  datatype Look = Active | Completed | Upcoming

  /** The pills, in display order. */
  const Steps: seq<Pill> := [Pill(1, "Welcome"), Pill(2, "Book Call"), Pill(3, "Testimonials")]

  predicate IsActive(id: int, currentStep: int) {
    id == currentStep
  }

  predicate IsCompleted(id: int, currentStep: int) {
    id < currentStep
  }

  /** The look of one pill: the flags are tested active first, then completed. */
  function LookOf(id: int, currentStep: int): (r: Look)
    ensures r == Active <==> IsActive(id, currentStep)
    ensures r == Completed <==> IsCompleted(id, currentStep)
    ensures r == Upcoming <==> currentStep < id
  {
    if IsActive(id, currentStep) then Active
    else if IsCompleted(id, currentStep) then Completed
    else Upcoming
  }

  /** The looks of all pills, in the order of `Steps`. */
  function Looks(currentStep: int): (r: seq<Look>)
    ensures |r| == |Steps|
    ensures forall i :: 0 <= i < |r| ==> (r[i] == Active <==> i + 1 == currentStep)
    ensures forall i :: 0 <= i < |r| ==> (r[i] == Completed <==> i + 1 < currentStep)
    ensures forall i :: 0 <= i < |r| ==> (r[i] == Upcoming <==> currentStep < i + 1)
  {
    [LookOf(Steps[0].id, currentStep), LookOf(Steps[1].id, currentStep), LookOf(Steps[2].id, currentStep)]
  }

  /** The positions of the pills drawn as active. */
  function ActivePositions(currentStep: int): set<int> {
    set i | 0 <= i < |Steps| && Looks(currentStep)[i] == Active
  }

  /** The positions of the pills drawn as completed. */
  function CompletedPositions(currentStep: int): set<int> {
    set i | 0 <= i < |Steps| && Looks(currentStep)[i] == Completed
  }

  /**
   * For a current step in [1,3] exactly one pill is active, the one at that
   * step, and the completed pills are exactly those before it; for any other
   * current step no pill is active.
   */
  lemma ExactlyOneActive(currentStep: int)
    ensures ActivePositions(currentStep) == if 1 <= currentStep <= 3 then {currentStep - 1} else {}
    ensures 1 <= currentStep <= 3 ==> |ActivePositions(currentStep)| == 1
    ensures forall i :: 0 <= i < |Steps| ==> (i in CompletedPositions(currentStep) <==> Steps[i].id < currentStep)
    ensures forall i :: i in CompletedPositions(currentStep) ==> 0 <= i < currentStep - 1
  {
    var looks := Looks(currentStep);
    forall i | 0 <= i < |Steps|
      ensures looks[i] == Active <==> i == currentStep - 1
      ensures looks[i] == Completed <==> i + 1 < currentStep
    {
      assert Steps[i].id == i + 1;
    }
    if 1 <= currentStep <= 3 {
      assert currentStep - 1 in ActivePositions(currentStep);
    }
  }
}
