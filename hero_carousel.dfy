/**
 * The full-width hero carousel: a current slide index over `count` slides,
 * keyboard and button navigation, index dots, a horizontal swipe gesture and a
 * one-shot auto-advance timer that is re-armed after every index change.
 */
module Hero {
  import opened Wrappers
  import opened Slides
  import opened Timers

  /** Pixels a swipe must exceed, strictly, to count as navigation. */
  const SwipeThreshold: int := 60

  class HeroCarousel {
    const count: nat               // slides.length
    var index: nat                 // the `index` state
    var touchStartX: Option<int>   // touchStartX.current
    var touchDelta: int            // touchDelta.current
    var timer: TimerSlot           // timerRef.current and its live handle
    var mounted: bool

    ghost predicate InRange()
      reads this
    {
      if count == 0 then index == 0 else index < count
    }

    /** The effect keeps a timer exactly while mounted with more than one slide. */
    predicate AutoAdvances()
      reads this
    {
      mounted && count > 1
    }

    ghost predicate Valid()
      reads this
    {
      InRange() && Owned(timer) && (Pending(timer) <==> AutoAdvances())
    }

    /** With no slides the component renders nothing, so no event reaches it. */
    predicate Rendered()
      reads this
    {
      mounted && count > 0
    }

    /** The prev/next buttons and the index dots exist only with more than one slide. */
    predicate ControlsShown()
      reads this
    {
      mounted && count > 1
    }

    /** An unchanged index leaves the timer alone; a changed one cancels the pending
        timer and leaves exactly one fresh timer pending. */
    ghost predicate Rescheduled(oldIndex: nat, oldTimer: TimerSlot)
      reads this
    {
      if index == oldIndex then timer == oldTimer
      else timer.ref == Some(oldTimer.nextId) && timer.live == {oldTimer.nextId}
    }

    /** Mounting: index 0, no touch in progress, and the effect's first run arms a
        timer when there is more than one slide. */
    constructor (count: nat)
      ensures this.count == count && mounted && Valid()
      ensures index == 0 && touchStartX == None && touchDelta == 0
      ensures Pending(timer) <==> count > 1
    {
      this.count := count;
      index := 0;
      touchStartX := None;
      touchDelta := 0;
      mounted := true;
      var t := Unarmed();
      if count > 1 {
        t := Rearm(t);
      }
      timer := t;
    }

    /** `setIndex(v)` and the effect it triggers. React skips the re-render, and so
        the effect, when the value is unchanged. */
    method SetIndex(v: nat)
      requires InRange() && Owned(timer) && mounted && v < count
      requires v == index ==> Valid()
      modifies this`index, this`timer
      ensures Valid() && index == v && Rescheduled(old(index), old(timer))
    {
      if v != index {
        var cleanup := count > 1;  // the last run of the effect registered its cleanup
        index := v;
        if cleanup {
          timer := Clear(timer);
        }
        if count > 1 {
          timer := Rearm(timer);
        }
      }
    }

    /** The "Siguiente" button. */
    method ClickNext()
      requires Valid() && ControlsShown()
      modifies this`index, this`timer
      ensures Valid() && index == Next(old(index), count) && index != old(index)
      ensures Rescheduled(old(index), old(timer))
    {
      SetIndex(Next(index, count));
    }

    /** The "Anterior" button. */
    method ClickPrev()
      requires Valid() && ControlsShown()
      modifies this`index, this`timer
      ensures Valid() && index == Prev(old(index), count) && index != old(index)
      ensures Rescheduled(old(index), old(timer))
    {
      SetIndex(Prev(index, count));
    }

    /** Index dot `i`. */
    method ClickDot(i: nat)
      requires Valid() && ControlsShown() && i < count
      modifies this`index, this`timer
      ensures Valid() && index == i
      ensures Rescheduled(old(index), old(timer))
    {
      SetIndex(i);
    }

    method KeyDown(key: string)
      requires Valid() && Rendered()
      modifies this`index, this`timer
      ensures Valid() && Rescheduled(old(index), old(timer))
      ensures key == "ArrowRight" ==> index == Next(old(index), count)
      ensures key == "ArrowLeft" ==> index == Prev(old(index), count)
      ensures key != "ArrowRight" && key != "ArrowLeft" ==> index == old(index)
    {
      if key == "ArrowRight" {
        SetIndex(Next(index, count));
      }
      if key == "ArrowLeft" {
        SetIndex(Prev(index, count));
      }
    }

    /** A finger lands at `clientX`: the gesture restarts from zero. */
    method TouchStart(clientX: int)
      requires Valid() && Rendered()
      modifies this`touchStartX, this`touchDelta
      ensures touchStartX == Some(clientX) && touchDelta == 0
    {
      touchStartX := Some(clientX);
      touchDelta := 0;
    }

    /** The finger moves to `clientX`; without a touch start nothing changes. */
    method TouchMove(clientX: int)
      requires Valid() && Rendered()
      modifies this`touchDelta
      ensures old(touchStartX).None? ==> touchDelta == old(touchDelta)
      ensures old(touchStartX).Some? ==> touchDelta == clientX - touchStartX.value
    {
      if touchStartX.Some? {
        touchDelta := clientX - touchStartX.value;
      }
    }

    /** The finger lifts. A drag further left than the threshold is one `next`, further
        right one `prev`, anything within it (bounds included) leaves the slide. The
        touch-start marker is always cleared; without a touch start nothing else happens. */
    method TouchEnd()
      requires Valid() && Rendered()
      modifies this`index, this`timer, this`touchStartX
      ensures Valid() && touchStartX == None && Rescheduled(old(index), old(timer))
      ensures old(touchStartX).None? ==> index == old(index)
      ensures old(touchStartX).Some? && touchDelta < -SwipeThreshold ==> index == Next(old(index), count)
      ensures old(touchStartX).Some? && touchDelta > SwipeThreshold ==> index == Prev(old(index), count)
      ensures -SwipeThreshold <= touchDelta <= SwipeThreshold ==> index == old(index)
    {
      if touchStartX.None? {
        return;
      }
      if touchDelta < -SwipeThreshold {
        SetIndex(Next(index, count));
      } else if touchDelta > SwipeThreshold {
        SetIndex(Prev(index, count));
      }
      touchStartX := None;
    }

    /** The browser runs the callback of handle `h`: if it is this carousel's live timer,
        that timer is spent, `next` runs and the effect arms its successor. */
    method Fire(h: nat)
      requires Valid()
      modifies this`index, this`timer
      ensures Valid()
      ensures h !in old(timer.live) ==> index == old(index) && timer == old(timer)
      ensures h in old(timer.live) ==> index == Next(old(index), count) && index != old(index)
      ensures h in old(timer.live) ==>
        timer.ref == Some(old(timer.nextId)) && timer.live == {old(timer.nextId)}
    {
      if h in timer.live {
        timer := Expire(timer, h);
        SetIndex(Next(index, count));
      }
    }

    /** Unmounting runs the effect's cleanup: no timer survives the component. */
    method Unmount()
      requires Valid() && mounted
      modifies this`timer, this`mounted
      ensures Valid() && !mounted && !Pending(timer)
    {
      if count > 1 {
        timer := Clear(timer);
      }
      mounted := false;
    }
  }

  /** A three-slide carousel: one elapsed interval, a left arrow, the third dot, then
      swipes of -80, +80 and -20 pixels. */
  method ThreeSlideWalkthrough()
  {
    var c := new HeroCarousel(3);
    assert c.timer.live == {c.timer.ref.value};
    c.Fire(c.timer.ref.value);
    assert c.index == 1;
    c.KeyDown("ArrowLeft");
    assert c.index == 0;
    c.ClickDot(2);
    assert c.index == 2;
    c.TouchStart(300);
    c.TouchMove(220);
    c.TouchEnd();
    assert c.index == 0;
    c.TouchStart(100);
    c.TouchMove(180);
    c.TouchEnd();
    assert c.index == 2;
    c.TouchStart(100);
    c.TouchMove(80);
    c.TouchEnd();
    assert c.index == 2 && Pending(c.timer);
  }

  /** One slide: no timer, and neither the arrows nor a swipe leave slide 0. */
  method SingleSlideStaysPut()
  {
    var c := new HeroCarousel(1);
    assert !Pending(c.timer);
    c.KeyDown("ArrowRight");
    c.TouchStart(300);
    c.TouchMove(100);
    c.TouchEnd();
    assert c.index == 0 && !Pending(c.timer);
  }
}
