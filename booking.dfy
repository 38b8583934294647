/**
 * The booking step (`StepBook`). Below the booking widget it shows one of
 * two controls: a link "I have completed my booking" while `hasBooked` is
 * false, which sets it, and the "Continue" button once it is true, which
 * calls the wizard's `nextStep`. Nothing ever sets `hasBooked` back.
 */
module Booking {

  /** The control shown below the widget. */
  datatype Control = BookedLink | ContinueButton

  function ShownControl(hasBooked: bool): (c: Control)
    ensures c == ContinueButton <==> hasBooked
  {
    if !hasBooked then BookedLink else ContinueButton
  }

  /** A click on one of the two controls; a click on a control not shown has no effect. */
  datatype Click = ClickBooked | ClickContinue

  /** The step's flag and how many times it has called `nextStep`. */
  datatype Outcome = Outcome(hasBooked: bool, advanced: nat)

  /**
   * The effect of one click: the link sets the flag, and Continue calls
   * `nextStep` once, but only when the flag is already set.
   */
  function Handle(o: Outcome, c: Click): (r: Outcome)
    ensures r.hasBooked <==> o.hasBooked || c == ClickBooked
    ensures r.advanced == if c == ClickContinue && o.hasBooked then o.advanced + 1 else o.advanced
  {
    match c
    case ClickBooked => if ShownControl(o.hasBooked) == BookedLink then o.(hasBooked := true) else o
    case ClickContinue => if ShownControl(o.hasBooked) == ContinueButton then o.(advanced := o.advanced + 1) else o
  }

  /** The outcome of a sequence of clicks, starting from the step's mount state. */
  function Replay(clicks: seq<Click>): (r: Outcome)
    ensures r.advanced <= |clicks|
    decreases |clicks|
  {
    if clicks == [] then Outcome(false, 0)
    else Handle(Replay(clicks[..|clicks| - 1]), clicks[|clicks| - 1])
  }

  /** `hasBooked` holds exactly when the booked link has been clicked at some point. */
  lemma {:induction false} BookedIffClicked(clicks: seq<Click>)
    ensures Replay(clicks).hasBooked <==> ClickBooked in clicks
  {
    if clicks != [] {
      var init := clicks[..|clicks| - 1];
      BookedIffClicked(init);
      assert clicks == init + [clicks[|clicks| - 1]];
    }
  }

  /** Once set, `hasBooked` stays set whatever is clicked afterwards. */
  lemma {:induction false} BookedIsPermanent(clicks: seq<Click>, more: seq<Click>)
    requires Replay(clicks).hasBooked
    ensures Replay(clicks + more).hasBooked
  {
    if more != [] {
      var init := more[..|more| - 1];
      BookedIsPermanent(clicks, init);
      assert (clicks + more)[..|clicks + more| - 1] == clicks + init;
    } else {
      assert clicks + more == clicks;
    }
  }

  /**
   * `nextStep` is reached only through the booked state: if the step has
   * called it, some click on the booked link came before a click on
   * "Continue"; and no click sequence without a booked click ever calls it.
   */
  lemma {:induction false} ContinueRequiresBooking(clicks: seq<Click>)
    ensures Replay(clicks).advanced > 0 ==>
      exists i, j :: 0 <= i < j < |clicks| && clicks[i] == ClickBooked && clicks[j] == ClickContinue
    ensures ClickBooked !in clicks ==> Replay(clicks).advanced == 0
  {
    if clicks != [] {
      var init := clicks[..|clicks| - 1];
      var last := clicks[|clicks| - 1];
      ContinueRequiresBooking(init);
      BookedIffClicked(init);
      if Replay(clicks).advanced > Replay(init).advanced {
        assert last == ClickContinue && Replay(init).hasBooked;
        var i :| 0 <= i < |init| && init[i] == ClickBooked;
        assert clicks[i] == ClickBooked;
      } else if Replay(init).advanced > 0 {
        var i, j :| 0 <= i < j < |init| && init[i] == ClickBooked && init[j] == ClickContinue;
        assert clicks[i] == ClickBooked && clicks[j] == ClickContinue;
      }
      if ClickBooked !in clicks {
        assert ClickBooked !in init by {
          assert forall k :: 0 <= k < |init| ==> init[k] == clicks[k];
        }
      }
    }
  }

  /** Appending a click to the history applies `Handle` to the replayed outcome. */
  lemma ReplaySnoc(clicks: seq<Click>, c: Click)
    ensures Replay(clicks + [c]) == Handle(Replay(clicks), c)
  {
    assert (clicks + [c])[..|clicks + [c]| - 1] == clicks;
  }

  /**
   * The booking step's local state, updated in place by its link. The ghost
   * `clicks` is the history of clicks on the step's controls; the flag is
   * always the one that history replays to.
   */
  class BookingStep {
    var hasBooked: bool
    ghost var clicks: seq<Click>

    ghost predicate Valid()
      reads this
    {
      hasBooked == Replay(clicks).hasBooked
    }

    constructor ()
      ensures !hasBooked && clicks == [] && Valid()
    {
      hasBooked := false;
      clicks := [];
    }

    function Shown(): Control
      reads this
    {
      ShownControl(hasBooked)
    }

    /** The "I have completed my booking" link. */
    method ClickBookedLink()
      requires Valid()
      modifies this
      ensures Valid() && hasBooked
      ensures clicks == old(clicks) + [ClickBooked]
      ensures Replay(clicks) == Handle(Replay(old(clicks)), ClickBooked)
    {
      ReplaySnoc(clicks, ClickBooked);
      hasBooked := true;
      clicks := clicks + [ClickBooked];
    }

    /**
     * A click on "Continue": it reaches `nextStep` exactly when the button
     * is on screen, that is when the booking has been acknowledged, and
     * then the replayed history counts one more call.
     */
    method ClickContinue() returns (callsNext: bool)
      requires Valid()
      modifies this`clicks
      ensures Valid() && hasBooked == old(hasBooked)
      ensures callsNext <==> hasBooked
      ensures callsNext <==> Shown() == ContinueButton
      ensures clicks == old(clicks) + [Click.ClickContinue]
      ensures Replay(clicks) == Handle(Replay(old(clicks)), Click.ClickContinue)
      ensures Replay(clicks).advanced == Replay(old(clicks)).advanced + (if callsNext then 1 else 0)
    {
      ReplaySnoc(clicks, Click.ClickContinue);
      callsNext := Shown() == ContinueButton;
      clicks := clicks + [Click.ClickContinue];
    }
  }
}
