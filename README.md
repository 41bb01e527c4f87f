# Slide sequencer and lead store

This project models two small pieces of sequential logic in a marketing website.

1. The **slide sequencer** that both carousels share. `HeroCarousel.jsx` is a full-width image slider and `TestimonialCarousel.jsx` is a quote slider. Each keeps a current `index` into a fixed list of `count` slides. The `next` and `prev` updaters wrap around modulo `count`. Index dots jump straight to a slide, and the arrow keys map to `next`/`prev`. The hero also reads a horizontal swipe with a strict 60-pixel threshold. The testimonial slider pauses while the pointer hovers over it. Auto-advance uses a single one-shot timer that the React effect clears and re-arms after every index change. No timer is armed with one slide or fewer, and in the testimonial slider none is armed while paused.
2. The backend's **in-memory lead store** (`leads.py`). It has a module-level list and a counter. `create_lead` stamps the counter as the new lead's id, appends the lead and increments the counter. `list_leads` returns the list.

Modules:

- `Slides` (slides.dfy) holds the pure `next`/`prev` updaters and `Walk`, any sequence of them. Its lemmas cover the inverse pair, cyclic closure and net displacement modulo `count`.
- `Timers` (timers.dfy) is the timer resource as a value. It holds `timerRef.current`, the set of this component's handles the browser will still fire, and the next handle `setTimeout` returns. `clearTimeout`, `setTimeout` and a timer running out are functions over this value, with the ownership invariant `Owned` (at most one live timer, and it is the one the ref holds).
- `Hero` (hero_carousel.dfy) is the class `HeroCarousel`. It has one method per event handler: buttons, dots, keys, touch start/move/end, the timer firing and unmount.
- `Testimonials` (testimonial_carousel.dfy) is the class `TestimonialCarousel`, with the same handlers plus mouse enter/leave. It has no touch handlers.
- `Leads` (leads.dfy) is the class `LeadStore`. Its reference function `Stamped` gives the table that a sequence of requests produces.

How React runs is modelled as follows:

- A state setter called with an unchanged value does not re-run the effect. So clicking the dot of the current slide leaves the pending timer alone.
- When an effect dependency changes, the cleanup of the previous run goes first. It was registered only if that run got past its early `return`. Then the body runs: clear, then arm.
- Each event handler and the effect it triggers form one atomic step.
- A timer firing is the event `Fire(h)` for a browser handle `h`. A handle that was cleared or has already run does nothing.
- Handlers exist only while the element is rendered. With `count == 0` the component returns `null`, but its hooks still run.
- The buttons and dots exist only when `count > 1`. These are the preconditions `Rendered()` and `ControlsShown()`.

The client methods `Hero.ThreeSlideWalkthrough`, `Hero.SingleSlideStaysPut`, `Testimonials.HoverPausesAutoAdvance` and `Leads.TwoLeads` are written against the contracts alone. They follow concrete scenarios step by step: one interval elapsing, a left arrow, the third dot, swipes of -80, +80 and -20 pixels, a hover, and two posted leads.

## Model

| member | source | states |
|---|---|---|
| Slides.Next | apps/web/src/components/HeroCarousel.jsx:32-34 | `next` stays in `[0, count)` and wraps from the last slide to 0, otherwise adds one |
| Slides.Prev | apps/web/src/components/HeroCarousel.jsx:36-38 | `prev` stays in `[0, count)` and wraps from 0 to `count - 1`, otherwise subtracts one |
| Slides.PrevUndoesNext | apps/web/src/components/HeroCarousel.jsx:32-38 | `prev(next(i)) == i` for every valid index |
| Slides.NextUndoesPrev | apps/web/src/components/HeroCarousel.jsx:32-38 | `next(prev(i)) == i` for every valid index |
| Slides.MovesChangeIndex | apps/web/src/components/HeroCarousel.jsx:32-38 | `next` and `prev` leave the index unchanged exactly when `count == 1`, so with more slides every move reschedules the timer |
| Slides.Walk | apps/web/src/components/TestimonialCarousel.jsx:20-25 | any sequence of `next`/`prev` calls keeps the index in `[0, count)` |
| Slides.WalkIsNetDisplacement | apps/web/src/components/TestimonialCarousel.jsx:20-25 | any sequence of moves lands at `(start + #next - #prev) mod count` |
| Slides.CyclicClosure | apps/web/src/components/HeroCarousel.jsx:32-38 | `count` calls of `next`, or of `prev`, return to the starting index |
| Timers.Unarmed | apps/web/src/components/HeroCarousel.jsx:26 | a fresh `useRef(null)` owns no timer and none is pending |
| Timers.Clear | apps/web/src/components/HeroCarousel.jsx:42 | clearing the handle in the ref cancels it; when the slot owns its timer, nothing remains pending |
| Timers.Arm | apps/web/src/components/HeroCarousel.jsx:43 | `setTimeout` gives a fresh handle that the ref now holds; arming an empty slot leaves exactly that one timer pending |
| Timers.ArmWithoutClearLeaks | apps/web/src/components/HeroCarousel.jsx:42-43 | without the clear on line 42, re-arming over a pending timer leaves two live timers and breaks ownership |
| Timers.Rearm | apps/web/src/components/TestimonialCarousel.jsx:29-30 | clear-then-arm leaves exactly one pending timer, and it is none of those pending before |
| Timers.Expire | apps/web/src/components/HeroCarousel.jsx:43 | a one-shot timer that runs is no longer live; a handle not live changes nothing |
| Hero.HeroCarousel.constructor | apps/web/src/components/HeroCarousel.jsx:24-45 | mounting starts at index 0 with no touch, and the first effect run arms a timer exactly when `count > 1` |
| Hero.HeroCarousel.SetIndex | apps/web/src/components/HeroCarousel.jsx:40-45 | setting the index re-runs the effect only if the index changed; then the old timer is cancelled and exactly one fresh timer is pending |
| Hero.HeroCarousel.ClickNext | apps/web/src/components/HeroCarousel.jsx:136-143 | the next button performs `next`, which changes the index and reschedules the timer |
| Hero.HeroCarousel.ClickPrev | apps/web/src/components/HeroCarousel.jsx:128-135 | the previous button performs `prev`, which changes the index and reschedules the timer |
| Hero.HeroCarousel.ClickDot | apps/web/src/components/HeroCarousel.jsx:145-152 | dot `i` (shown only when `count > 1`) sets the index to `i` |
| Hero.HeroCarousel.KeyDown | apps/web/src/components/HeroCarousel.jsx:47-50 | `ArrowRight` is `next`, `ArrowLeft` is `prev`, any other key leaves index and timer unchanged |
| Hero.HeroCarousel.TouchStart | apps/web/src/components/HeroCarousel.jsx:52-55 | a touch start records the start position and resets the accumulated delta to 0 |
| Hero.HeroCarousel.TouchMove | apps/web/src/components/HeroCarousel.jsx:56-59 | a move with no prior touch start changes nothing; otherwise the delta is the distance from the start |
| Hero.HeroCarousel.TouchEnd | apps/web/src/components/HeroCarousel.jsx:60-65 | delta < -60 is one `next`, delta > 60 is one `prev`, delta in [-60, 60] keeps the index; the start marker is always cleared; without a touch start nothing else changes |
| Hero.HeroCarousel.Fire | apps/web/src/components/HeroCarousel.jsx:40-45 | the live timer firing performs `next` and leaves exactly one fresh timer pending; any other handle changes nothing |
| Hero.HeroCarousel.Unmount | apps/web/src/components/HeroCarousel.jsx:44 | unmounting runs the cleanup, so no timer outlives the component |
| Testimonials.TestimonialCarousel.constructor | apps/web/src/components/TestimonialCarousel.jsx:14-32 | mounting starts at index 0, not paused, with a pending timer exactly when `count > 1` |
| Testimonials.TestimonialCarousel.RerunEffect | apps/web/src/components/TestimonialCarousel.jsx:27-32 | the previous run's cleanup, then the body: exactly one fresh timer when not paused and `count > 1`, otherwise none and no `setTimeout` call |
| Testimonials.TestimonialCarousel.SetIndex | apps/web/src/components/TestimonialCarousel.jsx:27-32 | an index change re-runs the effect; an unchanged index leaves the timer |
| Testimonials.TestimonialCarousel.SetPaused | apps/web/src/components/TestimonialCarousel.jsx:27-32 | `paused` is an effect dependency: changing it cancels the pending timer and re-arms exactly one only when resuming |
| Testimonials.TestimonialCarousel.ClickNext | apps/web/src/components/TestimonialCarousel.jsx:103-109 | the next button performs `next` |
| Testimonials.TestimonialCarousel.ClickPrev | apps/web/src/components/TestimonialCarousel.jsx:96-102 | the previous button performs `prev` |
| Testimonials.TestimonialCarousel.ClickDot | apps/web/src/components/TestimonialCarousel.jsx:111-118 | dot `i` (shown only when `count > 1`) sets the index to `i` |
| Testimonials.TestimonialCarousel.KeyDown | apps/web/src/components/TestimonialCarousel.jsx:34-37 | `ArrowRight` is `next`, `ArrowLeft` is `prev`, other keys change nothing |
| Testimonials.TestimonialCarousel.MouseEnter | apps/web/src/components/TestimonialCarousel.jsx:48 | hovering pauses, keeps the index, and leaves no timer pending |
| Testimonials.TestimonialCarousel.MouseLeave | apps/web/src/components/TestimonialCarousel.jsx:49 | leaving resumes: with `count > 1` exactly one timer is pending, and the index is kept |
| Testimonials.TestimonialCarousel.Fire | apps/web/src/components/TestimonialCarousel.jsx:27-32 | while paused a firing never advances; the live timer firing performs `next` and re-arms exactly one timer |
| Testimonials.TestimonialCarousel.Unmount | apps/web/src/components/TestimonialCarousel.jsx:31 | unmounting cancels any pending timer |
| Leads.Stamped | apps/backend/app/routers/leads.py:14-22 | the table built from n requests has n leads |
| Leads.StampedAt | apps/backend/app/routers/leads.py:18-22 | the k-th stored lead has id k + 1 and the k-th request's `nombre` and `email` |
| Leads.StampedIdsSequential | apps/backend/app/routers/leads.py:14-22 | the ids in the table are exactly 1, ..., n in insertion order |
| Leads.SequentialIdsIncrease | apps/backend/app/routers/leads.py:14-22 | sequential ids are strictly increasing and pairwise distinct |
| Leads.LeadStore.constructor | apps/backend/app/routers/leads.py:14-15 | the store starts empty with counter 1, so `counter == |db| + 1` |
| Leads.LeadStore.CreateLead | apps/backend/app/routers/leads.py:17-23 | the returned lead has the old counter as id and the input's fields; it is appended as the last element with earlier ones unchanged; the counter grows by one; the invariant is kept |
| Leads.LeadStore.ListLeads | apps/backend/app/routers/leads.py:25-27 | returns the current table without changing anything; ids are 1..n and lead k carries the k-th request's fields |

## Left out

- Rendering (JSX markup, CSS classes, `translateX` offsets, image loading attributes) is presentation, not behaviour. Only *whether* the element, buttons and dots exist is modelled, as `Rendered()` and `ControlsShown()`.
- Real time: `intervalMs`, delays and the slot between a state update and its passive effect are not modelled. A timer expiring inside that slot is not modelled either. A timer is only a live handle plus an explicit `Fire` event.
- Prop changes after mounting (`slides`/`items`, `intervalMs`, `heightClass`) are not modelled. `count` is fixed for the component's lifetime and the effect's other dependencies never change.
- React StrictMode's double effect runs and the identity of `useCallback` results are not modelled.
- Hero.HeroCarousel.TouchMove: touch coordinates are integers, whereas `clientX` is a JavaScript double; only the comparison with the 60-pixel threshold matters.
- Hero.HeroCarousel.TouchStart: only the first touch point (`e.touches[0]`) is modelled; multi-touch is not.
- Leads.LeadStore.CreateLead: Pydantic's `EmailStr` validation happens in FastAPI before the handler runs, and the HTTP routing around it is not modelled. The input is taken as already validated.
- Leads.LeadStore.CreateLead: FastAPI runs synchronous endpoints in a thread pool. Requests are modelled as serialized, so the race on the global counter is not modelled.
- The lead form, the API client, the scroll-reveal helper, the content schema and the build/config files are not part of this model. Their substance is network I/O, DOM plumbing or library calls.
