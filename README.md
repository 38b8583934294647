# Onboarding wizard: a Dafny model

This project models the logic of the onboarding wizard in `app/index.tsx`.
That logic is a handful of small state machines:

- **Wizard** (`App`): a current `step` (1 to 3) and a `finished` flag.
  The single forward transition `nextStep` moves the step on by one below 3 and sets `finished` at 3.
  The pair decides which screen is mounted and whether the progress bar is shown.
- **ProgressBar**: each of the three pills is drawn as active (its id is the current step), completed (its id is lower) or upcoming.
- **Testimonials**: the four testimonial cards, and the display list, which is the same four cards three times over.
- **Carousel** (`StepTestimonials`): once per animation frame the scroll offset moves on by 1 unless the pointer is over the carousel.
  When the moved offset reaches a third of the scroll width, it is reset to exactly 1.
  Pointer enter and leave set and clear the pause flag.
- **Booking** (`StepBook`): a `hasBooked` flag, false at mount and only ever set.
  The "Continue" control, the only way from this step to `nextStep`, is shown only while it is true.

Each part that the source updates in place is a class whose methods are tied to a pure transition function: `CarouselDriver.Tick` to `TickOffset`, `App.NextStep` to `Advance`, and the two `BookingStep` clicks to `Handle`.
`BookingStep` keeps a ghost history of clicks, and its flag is always the one `Replay` gives for that history.
The properties are lemmas about those functions over any number of steps.
The carousel's guard `scrollLeft >= scrollWidth / 3` is written as `3 * offset >= scrollWidth`, the same comparison without division.
The offset is a plain integer.

The carousel resets to exactly 1, not to 0 and not to the offset minus a third of the width.
The boundary test is made on the offset after it has moved on by one.

## Model

| member | source | states |
|---|---|---|
| `Wizard.App.constructor` | app/index.tsx:392-393 | The wizard mounts at step 1, not finished. |
| `Wizard.App.NextStep` | app/index.tsx:395-401 | Below step 3 the step goes up by exactly one and `finished` is unchanged. At step 3 or above the step is unchanged and `finished` becomes true. A step in [1,3] stays in [1,3]. |
| `Wizard.AdvanceNFromInitial` | app/index.tsx:391-401 | From mount, 1, 2 and 3 advances give (2,false), (3,false) and (3,true), and every further advance stays at (3,true). |
| `Wizard.AdvanceNMonotone` | app/index.tsx:395-401 | Any number of advances keeps the step in [1,3] and never lowers it. `finished` is never cleared, and step 3 is never left. |
| `Wizard.FinishedIsTerminal` | app/index.tsx:395-401 | A finished wizard at step 3 is unchanged by any number of further advances. |
| `Wizard.Content` | app/index.tsx:413-423 | At most one screen is mounted. When finished, it is exactly the finish screen. Otherwise it is Welcome, Book or Testimonials for step 1, 2 or 3, and none for any other step. |
| `Wizard.Render` | app/index.tsx:411-423 | The progress bar is shown exactly when not finished, and then with the current step. At most one screen is mounted, and it is the finish screen exactly when finished. |
| `Wizard.ReachableRendersOneScreen` | app/index.tsx:391-423 | Every state reachable from mount renders exactly one screen, the one for its step or the finish screen. The progress bar is shown exactly while not finished, and then exactly the current step's pill is active. |
| `ProgressBar.LookOf` | app/index.tsx:41-55 | A pill is active exactly when its id is the current step, completed exactly when its id is lower, and upcoming exactly when it is higher. Active and completed never both hold. |
| `ProgressBar.Looks` | app/index.tsx:29-43 | One look per pill of the bar, in order, each determined by that pill's id and the current step. |
| `ProgressBar.ExactlyOneActive` | app/index.tsx:41-43 | For a current step in [1,3] exactly one pill is active, the one at that step, and none is active otherwise. The completed pills are exactly those with a lower id. |
| `Testimonials.Tripled` | app/index.tsx:280 | The tripled list is three times as long as the original. |
| `Testimonials.TripledAt` | app/index.tsx:280 | Element i of the tripled list is element i mod n of the original. |
| `Testimonials.TripledShift` | app/index.tsx:280 | Shifting by one copy's length lands on an equal element, so the carousel's jump back by a third of its width shows the same cards. |
| `Testimonials.DisplayCardsShape` | app/index.tsx:257-280 | The display list has 12 cards, and card i is testimonial i mod 4. |
| `Carousel.CarouselDriver.constructor` | app/index.tsx:253-255 | The carousel starts unscrolled and not paused. |
| `Carousel.CarouselDriver.MouseEnter` | app/index.tsx:310 | Pointer entry sets the pause flag and changes nothing else. |
| `Carousel.CarouselDriver.MouseLeave` | app/index.tsx:311 | Pointer exit clears the pause flag and changes nothing else. |
| `Carousel.CarouselDriver.Resize` | app/index.tsx:291-317 | A layout change replaces the scroll width that the next frame reads and leaves the offset where it was. |
| `Carousel.CarouselDriver.Tick` | app/index.tsx:288-294 | One frame gives the offset of the tick function, and a paused frame leaves the offset unchanged. An offset inside the first copy stays there. After a resize, one unpaused frame brings any non-negative offset back inside the first copy. |
| `Carousel.CarouselDriver.RunFrames` | app/index.tsx:288-298 | After n frames the offset is that of n ticks, and the first-copy invariant is kept. |
| `Carousel.PausedFreezes` | app/index.tsx:289 | Any number of paused frames leaves the offset unchanged. |
| `Carousel.ResumeAfterPause` | app/index.tsx:288-311 | After a pause of any length, unpaused frames continue from the frozen offset exactly as if there had been no pause. |
| `Carousel.AdvancesUntilBoundary` | app/index.tsx:290-291 | Each unpaused frame adds exactly 1 to the offset as long as the moved offset stays below a third of the width. No reset happens early. |
| `Carousel.TickLandsInFirstCopy` | app/index.tsx:290-293 | If one copy is wider than 1, one unpaused frame from any non-negative offset lands in [1, width/3), including from an offset that has overshot. |
| `Carousel.StaysInFirstCopy` | app/index.tsx:288-293 | From any non-negative offset, every positive number of unpaused frames leaves the offset in [1, width/3). |
| `Carousel.CycleFromReset` | app/index.tsx:290-293 | From the reset value 1, the running carousel visits 2, 3, and so on up to the period, then returns to 1 after exactly `(width-1)/3` frames, and from then on repeats with that period. |
| `Booking.ShownControl` | app/index.tsx:233-246 | The Continue button is shown exactly when `hasBooked` holds. Otherwise the booked link is shown. |
| `Booking.Handle` | app/index.tsx:233-245 | The link sets `hasBooked`. A Continue click calls `nextStep` once, and only when `hasBooked` already holds. Nothing clears the flag. |
| `Booking.Replay` | app/index.tsx:187-245 | Starting from the mount state, no click sequence calls `nextStep` more often than it has clicks. |
| `Booking.ReplaySnoc` | app/index.tsx:233-245 | One more click on the history gives the outcome of `Handle` applied to the old outcome. |
| `Booking.BookedIffClicked` | app/index.tsx:187-239 | `hasBooked` holds exactly when the booked link has been clicked at some point. |
| `Booking.BookedIsPermanent` | app/index.tsx:233-239 | Once `hasBooked` is set, no later clicks clear it. |
| `Booking.ContinueRequiresBooking` | app/index.tsx:233-245 | If the step has called `nextStep`, a click on the booked link came before a click on Continue. With no booked click, `nextStep` is never called. |
| `Booking.BookingStep.constructor` | app/index.tsx:187 | The step mounts with `hasBooked` false and an empty click history. |
| `Booking.BookingStep.ClickBookedLink` | app/index.tsx:233-239 | The link sets `hasBooked` and records the click. The new outcome is `Handle` of the old one, so the flag keeps matching the replayed history. |
| `Booking.BookingStep.ClickContinue` | app/index.tsx:240-245 | A Continue click reaches `nextStep` exactly when the button is on screen, that is, when `hasBooked` holds. It leaves the flag alone, and the replayed history counts one more call exactly then. |

## Left out

- TiltCard pointer math (app/index.tsx:89-126): floating-point arithmetic on bounding rectangles, producing a CSS transform string. It is presentation only.
- Completion confetti (app/index.tsx:353-376): clock reads, random origins, a fixed-interval timer and a call into the confetti library.
- Cal.com embed bootstrap (app/index.tsx:196-210): mutation of the global window object and script injection into a third-party widget.
- Skeleton loading delay (app/index.tsx:188-194, 212, 224-229): a 2-second timer that only hides a placeholder.
- Animation-frame scheduling (app/index.tsx:282-300) is left out as event-loop plumbing. This covers `requestAnimationFrame` and its cancellation on unmount, the effect's re-registration when `isPaused` changes, and the early return when the container is not mounted. Only single frames and runs of frames with a fixed pause flag are modelled; a pause change between runs is a call to `MouseEnter` or `MouseLeave` in between.
- The scroll width is read once per call of `Tick` from the driver's field. `RunFrames` holds it fixed for the whole run, whereas the source re-reads `scrollWidth` on every frame (app/index.tsx:291). A width change between frames is modelled by calling `Resize` between runs, not inside one.
- The browser's clamping of `scrollLeft` to the scrollable range is not visible in the source. The offset is an unbounded integer.
- `Wizard.App.NextStep` assumes each call sees the latest state. The React closure in `setStep(step + 1)` could observe a stale `step` if two calls were batched.
- Icons, `Button`, `SkeletonLoader`, the step screens' markup and styling, and `createRoot`/`render` (app/index.tsx:6-151, 154-183, 429-430) are markup only.
