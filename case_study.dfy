/** The clinical case of src/components/CaseStudy.tsx: its steps are a
    single-open accordion, all closed at first, and its learning points
    are hidden until the footer button shows them. */
module CaseStudy {
  import opened Wrappers
  import Accordion

  class CaseStudyView {
    const stepCount: nat
    var expandedStep: Option<int>
    var showLearningPoints: bool

    constructor (stepCount: nat)
      ensures this.stepCount == stepCount
      ensures expandedStep == None && !showLearningPoints
    {
      this.stepCount := stepCount;
      expandedStep := None;
      showLearningPoints := false;
    }

    /** Whether step `index` is shown open. */
    predicate StepOpen(index: int)
      reads this
    {
      Accordion.IsOpen(expandedStep, index)
    }

    /** `onOpenChange` of step `index`, one of the rendered steps: the open
        step closes, any other step opens and closes the one that was open. */
    method ToggleStep(index: int)
      requires 0 <= index < stepCount
      modifies this`expandedStep
      ensures expandedStep == Accordion.Toggle(old(expandedStep), index)
      ensures StepOpen(index) <==> !old(StepOpen(index))
      ensures forall j :: j != index ==> !StepOpen(j)
    {
      expandedStep := if expandedStep == Some(index) then None else Some(index);
    }

    /** The footer button flips the learning points. */
    method ToggleLearningPoints()
      modifies this`showLearningPoints
      ensures showLearningPoints == !old(showLearningPoints)
    {
      showLearningPoints := !showLearningPoints;
    }
  }

  /** Two clicks on a step close it again, two clicks on the footer button
      hide the learning points again. */
  method ClickTwice(stepCount: nat, index: int) returns (stepOpen: bool, pointsShown: bool)
    requires 0 <= index < stepCount
    ensures !stepOpen && !pointsShown
  {
    var view := new CaseStudyView(stepCount);
    view.ToggleStep(index);
    view.ToggleStep(index);
    view.ToggleLearningPoints();
    view.ToggleLearningPoints();
    stepOpen, pointsShown := view.StepOpen(index), view.showLearningPoints;
  }
}
