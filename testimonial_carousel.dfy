/**
 * The testimonial slider: the same sequencer as the hero carousel without the
 * swipe gesture, plus a `paused` flag that the pointer sets while it hovers the
 * widget. The auto-advance effect depends on `paused` as well as on `index`.
 */
module Testimonials {
  import opened Wrappers
  import opened Slides
  import opened Timers

  class TestimonialCarousel {
    const count: nat        // items.length
    var index: nat          // the `index` state
    var paused: bool        // the `paused` state
    var timer: TimerSlot    // timerRef.current and its live handle
    var mounted: bool

    ghost predicate InRange()
      reads this
    {
      if count == 0 then index == 0 else index < count
    }

    /** The effect's body runs past its early return: more than one item and not paused. */
    predicate Armed()
      reads this
    {
      !paused && count > 1
    }

    predicate AutoAdvances()
      reads this
    {
      mounted && Armed()
    }

    ghost predicate Valid()
      reads this
    {
      InRange() && Owned(timer) && (Pending(timer) <==> AutoAdvances())
    }

    predicate Rendered()
      reads this
    {
      mounted && count > 0
    }

    predicate ControlsShown()
      reads this
    {
      mounted && count > 1
    }

    /** If neither effect dependency changed the timer is untouched; otherwise the
        previous timer is cancelled and, when the carousel auto-advances, exactly one
        fresh timer is pending, else none is and none was set. */
    ghost predicate Rescheduled(oldIndex: nat, oldPaused: bool, oldTimer: TimerSlot)
      reads this
    {
      if index == oldIndex && paused == oldPaused then timer == oldTimer
      else if AutoAdvances() then timer.ref == Some(oldTimer.nextId) && timer.live == {oldTimer.nextId}
      else timer.live == {} && timer.nextId == oldTimer.nextId
    }

    constructor (count: nat)
      ensures this.count == count && mounted && Valid()
      ensures index == 0 && !paused
      ensures Pending(timer) <==> count > 1
    {
      this.count := count;
      index := 0;
      paused := false;
      mounted := true;
      var t := Unarmed();
      if count > 1 {
        t := Rearm(t);
      }
      timer := t;
    }

    /** The effect after one of its dependencies changed: the cleanup of its previous
        run, if that run got past the early return, then the body. */
    method RerunEffect(hadCleanup: bool)
      requires InRange() && Owned(timer) && mounted
      requires Pending(timer) ==> hadCleanup
      modifies this`timer
      ensures Valid() && timer.nextId >= old(timer.nextId)
      ensures Armed() ==> timer.ref == Some(old(timer.nextId)) && timer.live == {old(timer.nextId)}
      ensures !Armed() ==> timer.live == {} && timer.nextId == old(timer.nextId)
    {
      if hadCleanup {
        timer := Clear(timer);
      }
      if Armed() {
        timer := Rearm(timer);
      }
    }

    /** `setIndex(v)`; React skips the re-render, and so the effect, when the value is unchanged. */
    method SetIndex(v: nat)
      requires InRange() && Owned(timer) && mounted && v < count
      requires Pending(timer) ==> Armed()
      requires v == index ==> Valid()
      modifies this`index, this`timer
      ensures Valid() && index == v
      ensures Rescheduled(old(index), paused, old(timer))
    {
      if v != index {
        var cleanup := Armed();
        index := v;
        RerunEffect(cleanup);
      }
    }

    /** `setPaused(p)`, likewise skipped when unchanged. */
    method SetPaused(p: bool)
      requires Valid() && mounted
      modifies this`paused, this`timer
      ensures Valid() && paused == p
      ensures Rescheduled(index, old(paused), old(timer))
    {
      if p != paused {
        var cleanup := Armed();
        paused := p;
        RerunEffect(cleanup);
      }
    }

    method ClickNext()
      requires Valid() && ControlsShown()
      modifies this`index, this`timer
      ensures Valid() && index == Next(old(index), count) && index != old(index)
      ensures Rescheduled(old(index), paused, old(timer))
    {
      SetIndex(Next(index, count));
    }

    method ClickPrev()
      requires Valid() && ControlsShown()
      modifies this`index, this`timer
      ensures Valid() && index == Prev(old(index), count) && index != old(index)
      ensures Rescheduled(old(index), paused, old(timer))
    {
      SetIndex(Prev(index, count));
    }

    method ClickDot(i: nat)
      requires Valid() && ControlsShown() && i < count
      modifies this`index, this`timer
      ensures Valid() && index == i
      ensures Rescheduled(old(index), paused, old(timer))
    {
      SetIndex(i);
    }

    method KeyDown(key: string)
      requires Valid() && Rendered()
      modifies this`index, this`timer
      ensures Valid() && Rescheduled(old(index), paused, old(timer))
      ensures key == "ArrowRight" ==> index == Next(old(index), count)
      ensures key == "ArrowLeft" ==> index == Prev(old(index), count)
      ensures key != "ArrowRight" && key != "ArrowLeft" ==> index == old(index)
    {
      if key == "ArrowRight" {
        SetIndex(Next(index, count));
      }
      if key == "ArrowLeft" {
        SetIndex(Prev(index, count));
      }
    }

    /** The pointer enters: auto-advance stops and no timer stays pending. */
    method MouseEnter()
      requires Valid() && Rendered()
      modifies this`paused, this`timer
      ensures Valid() && paused && !Pending(timer)
      ensures Rescheduled(index, old(paused), old(timer))
    {
      SetPaused(true);
    }

    /** The pointer leaves: with more than one item exactly one timer is pending again. */
    method MouseLeave()
      requires Valid() && Rendered()
      modifies this`paused, this`timer
      ensures Valid() && !paused
      ensures count > 1 ==> timer.ref.Some? && timer.live == {timer.ref.value}
      ensures Rescheduled(index, old(paused), old(timer))
    {
      SetPaused(false);
    }

    /** The browser runs the callback of handle `h`. While paused no timer of this
        carousel is live, so nothing advances. */
    method Fire(h: nat)
      requires Valid()
      modifies this`index, this`timer
      ensures Valid()
      ensures old(paused) ==> index == old(index) && timer == old(timer)
      ensures h !in old(timer.live) ==> index == old(index) && timer == old(timer)
      ensures h in old(timer.live) ==> index == Next(old(index), count) && index != old(index)
      ensures h in old(timer.live) ==>
        timer.ref == Some(old(timer.nextId)) && timer.live == {old(timer.nextId)}
    {
      if h in timer.live {
        timer := Expire(timer, h);
        SetIndex(Next(index, count));
      }
    }

    method Unmount()
      requires Valid() && mounted
      modifies this`timer, this`mounted
      ensures Valid() && !mounted && !Pending(timer)
    {
      if Armed() {
        timer := Clear(timer);
      }
      mounted := false;
    }
  }

  /** Hovering stalls the slider: the timer armed before the hover never fires, keyboard
      navigation still works, and leaving resumes auto-advance. */
  method HoverPausesAutoAdvance()
  {
    var c := new TestimonialCarousel(3);
    var h := c.timer.ref.value;
    c.MouseEnter();
    c.Fire(h);
    assert c.index == 0;
    c.KeyDown("ArrowRight");
    assert c.index == 1 && !Pending(c.timer);
    c.MouseLeave();
    assert c.timer.live == {c.timer.ref.value};
    c.Fire(c.timer.ref.value);
    assert c.index == 2;
  }
}
