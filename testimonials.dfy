/**
 * The testimonial cards of step 3 and the display list the carousel scrolls
 * through: the four cards written out three times in a row, so that
 * scrolling back by one copy's width shows the same picture.
 */
module Testimonials {

  datatype Testimonial = Testimonial(company: string, quote: string, stat: string)

  const Cards: seq<Testimonial> := [
    Testimonial("Midas Roofing",
      "Our missed calls dropped by 90% in the first week. Nouxel's AI sounds exactly like our best rep.",
      "90% Drop in Missed Calls"),
    Testimonial("Summit Energy",
      "The voice latency is non-existent. Customers have no idea they are talking to an AI agent.",
      "Zero Latency"),
    Testimonial("Vibe Insurance",
      "It handled 500+ inbound claims during the storm. Our team could finally focus on complex cases.",
      "500+ Calls Handled"),
    Testimonial("Super Roofer",
      "Setup was instant. We plugged it into our CRM and it started booking appointments immediately.",
      "Instant Integration")
  ]

  /** A list spread three times into one. */
  function Tripled<T>(xs: seq<T>): (r: seq<T>)
    ensures |r| == 3 * |xs|
  {
    xs + xs + xs
  }

  /** Element i of the tripled list is element i mod n of the original. */
  lemma TripledAt<T>(xs: seq<T>, i: int)
    requires 0 <= i < 3 * |xs|
    ensures Tripled(xs)[i] == xs[i % |xs|]
  {
    var n := |xs|;
    if n <= i < 2 * n {
      assert i % n == i - n;
    } else if 2 * n <= i {
      assert i % n == i - 2 * n;
    }
  }

  /**
   * Shifting by one copy's width lands on the same element: the property
   * that lets the carousel jump back to the first copy without a visible snap.
   */
  lemma TripledShift<T>(xs: seq<T>, i: int)
    requires 0 <= i < 2 * |xs|
    ensures Tripled(xs)[i + |xs|] == Tripled(xs)[i]
  {
    var r := Tripled(xs);
    var n := |xs|;
    if i < n {
      assert r[i] == xs[i] && r[i + n] == xs[i];
    } else {
      assert r[i] == xs[i - n] && r[i + n] == xs[i - n];
    }
  }

  /** `displayTestimonials`. */
  const DisplayCards: seq<Testimonial> := Tripled(Cards)

  /** The display list holds twelve cards, card i being card i mod 4 of the list. */
  lemma DisplayCardsShape()
    ensures |DisplayCards| == 12
    ensures forall i :: 0 <= i < |DisplayCards| ==> DisplayCards[i] == Cards[i % 4]
  {
    forall i | 0 <= i < |DisplayCards|
      ensures DisplayCards[i] == Cards[i % 4]
    {
      TripledAt(Cards, i);
    }
  }
}
