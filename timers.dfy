/**
 * The one-shot auto-advance timer of a carousel, as a value the component
 * reassigns. `ref` is `timerRef.current` (null until the first `setTimeout`),
 * `live` is the set of this component's handles the browser will still fire,
 * and `nextId` is the handle the next `setTimeout` returns. Browser handles are
 * positive integers, so the source's `timerRef.current && clearTimeout(...)`
 * guard is a null check.
 */
module Timers {
  import opened Wrappers

  datatype TimerSlot = TimerSlot(ref: Option<nat>, live: set<nat>, nextId: nat)

  /** Some auto-advance callback is scheduled. */
  predicate Pending(t: TimerSlot)
  {
    t.live != {}
  }

  /** At most one timer is alive, it is the one `timerRef` holds, and that handle
      was issued before the next fresh one. */
  predicate Owned(t: TimerSlot)
  {
    && 0 < t.nextId
    && (t.ref.Some? ==> 0 < t.ref.value < t.nextId)
    && (t.live == {} || (t.ref.Some? && t.live == {t.ref.value}))
  }

  /** `useRef(null)` before any timer was set. */
  function Unarmed(): (t: TimerSlot)
    ensures Owned(t) && !Pending(t) && t.ref == None
  {
    TimerSlot(None, {}, 1)
  }

  /** `timerRef.current && clearTimeout(timerRef.current)`: cancels the timer the ref
      names; when the slot owns its timer, nothing stays pending. */
  function Clear(t: TimerSlot): (r: TimerSlot)
    ensures r.ref == t.ref && r.nextId == t.nextId && r.live <= t.live
    ensures t.ref.Some? ==> t.ref.value !in r.live
    ensures Owned(t) ==> Owned(r) && !Pending(r)
  {
    if t.ref.Some? then t.(live := t.live - {t.ref.value}) else t
  }

  /** `timerRef.current = setTimeout(next, intervalMs)`: schedules a fresh handle and
      overwrites the ref with it; earlier live handles are not touched. */
  function Arm(t: TimerSlot): (r: TimerSlot)
    ensures r.ref == Some(t.nextId) && r.nextId > t.nextId
    ensures t.live <= r.live && t.nextId in r.live
    ensures Owned(t) && !Pending(t) ==> Owned(r) && r.live == {t.nextId}
  {
    TimerSlot(Some(t.nextId), t.live + {t.nextId}, t.nextId + 1)
  }

  /** Arming without clearing leaks: a still-pending timer would be orphaned
      beside the new one and both would fire. */
  lemma ArmWithoutClearLeaks(t: TimerSlot)
    requires Owned(t) && Pending(t)
    ensures |Arm(t).live| == 2 && !Owned(Arm(t))
  {
    var old_ := t.ref.value;
    assert Arm(t).live == {old_, t.nextId};
  }

  /** The effect body: clear the previous timer, then arm a fresh one. Exactly one
      timer is then pending, and it is none of the ones pending before. */
  function Rearm(t: TimerSlot): (r: TimerSlot)
    ensures r.ref == Some(t.nextId) && r.nextId > t.nextId
    ensures Owned(t) ==> Owned(r) && r.live == {t.nextId} && r.live !! t.live
  {
    Arm(Clear(t))
  }

  /** The browser runs handle `h`'s callback once; a cleared or already-run handle never fires. */
  function Expire(t: TimerSlot, h: nat): (r: TimerSlot)
    ensures h !in r.live && r.live <= t.live && r.ref == t.ref && r.nextId == t.nextId
    ensures h in t.live && Owned(t) ==> Owned(r) && !Pending(r)
    ensures h !in t.live ==> r == t
  {
    t.(live := t.live - {h})
  }
}
