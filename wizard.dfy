/**
 * The onboarding wizard (`App`): a current step and a terminal `finished`
 * flag, one forward transition `nextStep`, and the selection of what is
 * mounted for each pair (step, finished).
 */
module Wizard {
  import opened Wrappers
  import ProgressBar

  /** The content screens the wizard can mount. */
  datatype Screen = Welcome | Book | Testimonials | Finish

  /** The two pieces of state `App` holds. */
  datatype WizardState = WizardState(step: int, finished: bool)

  /** The state at mount. */
  const Initial := WizardState(1, false)

  /** Steps take the values 1, 2 and 3. */
  predicate InRange(s: WizardState) {
    1 <= s.step <= 3
  }

  /** `nextStep`: below step 3 move on one step, otherwise mark the wizard finished. */
  function Advance(s: WizardState): WizardState {
    if s.step < 3 then s.(step := s.step + 1) else s.(finished := true)
  }

  /** The state after `n` calls of `nextStep`. */
  function AdvanceN(s: WizardState, n: nat): WizardState
    decreases n
  {
    if n == 0 then s else Advance(AdvanceN(s, n - 1))
  }

  /**
   * From the initial state the wizard walks (1,false), (2,false), (3,false)
   * and then stays at (3,true) however often it is advanced.
   */
  lemma {:induction false} AdvanceNFromInitial(n: nat)
    ensures AdvanceN(Initial, n) == if n < 3 then WizardState(1 + n, false) else WizardState(3, true)
  {
    if n > 0 {
      AdvanceNFromInitial(n - 1);
    }
  }

  /**
   * Advancing keeps the step in [1,3], never lowers it, never clears
   * `finished`, and leaves the step alone once it has reached 3.
   */
  lemma {:induction false} AdvanceNMonotone(s: WizardState, n: nat)
    requires InRange(s)
    ensures InRange(AdvanceN(s, n))
    ensures AdvanceN(s, n).step >= s.step
    ensures s.finished ==> AdvanceN(s, n).finished
    ensures s.step == 3 ==> AdvanceN(s, n).step == 3
  {
    if n > 0 {
      AdvanceNMonotone(s, n - 1);
    }
  }

  /** Once finished at step 3, further advances change nothing. */
  lemma {:induction false} FinishedIsTerminal(s: WizardState, n: nat)
    requires s.finished && s.step >= 3
    ensures AdvanceN(s, n) == s
  {
    if n > 0 {
      FinishedIsTerminal(s, n - 1);
    }
  }

  /**
   * The content region: while not finished each of the three step screens
   * is mounted under its own `step === k` test; once finished only the
   * finish screen is.
   */
  function Content(step: int, finished: bool): (r: seq<Screen>)
    ensures |r| <= 1
    ensures finished ==> r == [Finish]
    ensures !finished ==> (r == [] <==> !(1 <= step <= 3))
    ensures !finished && 1 <= step <= 3 ==> r == [[Welcome, Book, Testimonials][step - 1]]
    ensures Finish in r <==> finished
  {
    if !finished then
      (if step == 1 then [Welcome] else [])
      + (if step == 2 then [Book] else [])
      + (if step == 3 then [Testimonials] else [])
    else
      [Finish]
  }

  /** What `App` renders: the progress bar with its current step, if shown, and the content. */
  datatype View = View(progress: Option<int>, content: seq<Screen>)

  function Render(s: WizardState): (v: View)
    ensures v.progress.Some? <==> !s.finished
    ensures v.progress.Some? ==> v.progress.value == s.step
    ensures |v.content| <= 1 && (Finish in v.content <==> s.finished)
  {
    View(if !s.finished then Some(s.step) else None, Content(s.step, s.finished))
  }

  /**
   * Every state reachable from mount renders exactly one screen, the one
   * belonging to its step or the finish screen; the progress bar is shown
   * exactly while not finished, and then exactly one of its pills is active,
   * the one of the current step.
   */
  lemma ReachableRendersOneScreen(n: nat)
    ensures |Render(AdvanceN(Initial, n)).content| == 1
    ensures Render(AdvanceN(Initial, n)).content[0] == [Welcome, Book, Testimonials, Finish][if n < 3 then n else 3]
    ensures Render(AdvanceN(Initial, n)).progress.Some? <==> n < 3
    ensures Render(AdvanceN(Initial, n)).progress.Some? ==>
      ProgressBar.ActivePositions(Render(AdvanceN(Initial, n)).progress.value) == {n}
  {
    AdvanceNFromInitial(n);
    if n < 3 {
      ProgressBar.ExactlyOneActive(1 + n);
    }
  }

  /** The `App` component's state, updated in place by `nextStep`. */
  class App {
    var step: int
    var finished: bool

    /** The state as a value. */
    function State(): WizardState
      reads this
    {
      WizardState(step, finished)
    }

    constructor ()
      ensures State() == Initial
    {
      step := 1;
      finished := false;
    }

    /** `nextStep`, the handler behind every step's continue control. */
    method NextStep()
      modifies this
      ensures State() == Advance(old(State()))
      ensures old(step) < 3 ==> step == old(step) + 1 && finished == old(finished)
      ensures old(step) >= 3 ==> step == old(step) && finished
      ensures old(InRange(State())) ==> InRange(State())
    {
      if step < 3 {
        step := step + 1;
      } else {
        finished := true;
      }
    }
  }
}
