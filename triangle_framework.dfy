/**
 * The retained state of one mounted `TriangleFramework` and the operations
 * that change it: the throttled scroll handler, the animation-frame callback
 * that evaluates the stage, the intersection and scroll events, mounting and
 * teardown.
 *
 * The browser's side of `requestAnimationFrame` is kept abstract: the set of
 * this controller's frame callbacks still waiting to run, and the handle the
 * next request returns (handles are positive, so a stored handle is truthy).
 */
module TriangleFramework {
  import opened Wrappers
  import opened ScrollStage

  class Controller {
    /** `activeStage`, the React state the rendering reads. */
    var activeStage: int
    /** `lastStageRef.current`, the stage of the last update. */
    var lastStage: int
    /** `animationFrameRef.current`: the handle of the last frame requested, if any. */
    var frameRef: Option<nat>
    /** Browser side: handles of this controller's frame callbacks not yet run or cancelled. */
    var queuedFrames: set<nat>
    /** Browser side: the handle the next `requestAnimationFrame` returns. */
    var nextHandle: nat
    /** The scroll listener is attached. */
    var listening: bool
    /** The intersection observer watches the section. */
    var observing: bool
    /** The effect has run and has not been cleaned up. */
    var connected: bool

    ghost predicate Valid()
      reads this
    {
      0 <= lastStage <= MaxStage && activeStage == lastStage
      && 1 <= nextHandle
      && (frameRef.Some? ==> 1 <= frameRef.value < nextHandle)
      // at most one evaluation is pending, and it is the one the ref holds
      && (forall h :: h in queuedFrames ==> frameRef == Some(h))
      && (!connected ==> queuedFrames == {} && !listening && !observing)
    }

    /** There is never more than one evaluation waiting for a frame. */
    lemma AtMostOnePending()
      requires Valid()
      ensures |queuedFrames| <= 1
    {
      if queuedFrames != {} {
        assert queuedFrames == {frameRef.value};
      }
    }

    /** The five visibility flags for the current stage, in rendering order. */
    function VisibleFlags(): (f: seq<bool>)
      reads this
      requires Valid()
      ensures |f| == MaxStage
      ensures forall i :: 0 <= i < MaxStage ==> (f[i] <==> activeStage >= i + 1)
      ensures CountTrue(f) == activeStage
    {
      FlagsCountStage(activeStage);
      Flags(activeStage)
    }

    /** The first render: stage 0, no frame requested, nothing attached. */
    constructor ()
      ensures Valid()
      ensures activeStage == 0 && lastStage == 0
      ensures frameRef == None && queuedFrames == {}
      ensures !listening && !observing && !connected
    {
      activeStage := 0;
      lastStage := 0;
      frameRef := None;
      queuedFrames := {};
      nextHandle := 1;
      listening := false;
      observing := false;
      connected := false;
    }

    /**
     * `handleScroll`: cancel the frame the ref holds, if any, and request a
     * new one; the new one is then the only evaluation pending.
     */
    method Schedule()
      requires Valid() && connected
      modifies this`frameRef, this`queuedFrames, this`nextHandle
      ensures Valid()
      ensures frameRef == Some(old(nextHandle)) && nextHandle == old(nextHandle) + 1
      ensures queuedFrames == {old(nextHandle)}
    {
      if frameRef.Some? {
        queuedFrames := queuedFrames - {frameRef.value};
      }
      var handle := nextHandle;
      nextHandle := nextHandle + 1;
      queuedFrames := queuedFrames + {handle};
      frameRef := Some(handle);
    }

    /**
     * The body of the frame callback: read the geometry, skip an absent or
     * off-screen section, otherwise compute the stage and update the state
     * only when it differs from the last one. `notified` tells whether
     * `setActiveStage` was called.
     */
    method Evaluate(section: Option<Rect>, windowHeight: real) returns (notified: bool)
      requires Valid() && windowHeight > 0.0
      modifies this`activeStage, this`lastStage
      ensures Valid()
      ensures lastStage == Settle(old(lastStage), section, windowHeight)
      ensures Observed(section, windowHeight).None? ==> lastStage == old(lastStage) && !notified
      ensures notified <==> lastStage != old(lastStage)
    {
      notified := false;
      if section.None? {
        return;
      }
      var rect := section.value;
      if rect.bottom < 0.0 || rect.top > windowHeight {
        return;
      }
      var scrollProgress := Progress(rect, windowHeight);
      var newStage := ComputeStage(scrollProgress);
      if newStage != lastStage {
        activeStage := newStage;
        lastStage := newStage;
        notified := true;
      }
    }

    /**
     * Two evaluations of the same geometry: the second one never calls
     * `setActiveStage`, and the stage is where one evaluation puts it.
     */
    method EvaluateTwice(section: Option<Rect>, windowHeight: real) returns (first: bool, second: bool)
      requires Valid() && windowHeight > 0.0
      modifies this`activeStage, this`lastStage
      ensures Valid()
      ensures !second
      ensures lastStage == Settle(old(lastStage), section, windowHeight)
      ensures first <==> lastStage != old(lastStage)
    {
      first := Evaluate(section, windowHeight);
      SettleIdempotent(old(lastStage), section, windowHeight);
      second := Evaluate(section, windowHeight);
    }

    /**
     * The browser runs the pending frame `handle`. The ref keeps the handle
     * after the callback has run.
     */
    method RunFrame(handle: nat, section: Option<Rect>, windowHeight: real) returns (notified: bool)
      requires Valid() && handle in queuedFrames && windowHeight > 0.0
      modifies this`queuedFrames, this`activeStage, this`lastStage
      ensures Valid()
      ensures queuedFrames == {} && frameRef == old(frameRef)
      ensures lastStage == Settle(old(lastStage), section, windowHeight)
      ensures notified <==> lastStage != old(lastStage)
    {
      queuedFrames := queuedFrames - {handle};
      assert queuedFrames == {} by {
        AtMostOnePending();
      }
      notified := Evaluate(section, windowHeight);
    }

    /**
     * The intersection observer reports the section: entering attaches the
     * scroll listener and schedules an evaluation; leaving only detaches the
     * listener, so a frame already requested still runs.
     */
    method OnIntersection(isIntersecting: bool)
      requires Valid() && observing
      modifies this`listening, this`frameRef, this`queuedFrames, this`nextHandle
      ensures Valid()
      ensures listening == isIntersecting
      ensures isIntersecting ==> queuedFrames == {old(nextHandle)} && frameRef == Some(old(nextHandle))
      ensures isIntersecting ==> nextHandle == old(nextHandle) + 1
      ensures !isIntersecting ==> queuedFrames == old(queuedFrames) && frameRef == old(frameRef) && nextHandle == old(nextHandle)
    {
      if isIntersecting {
        listening := true;
        Schedule();
      } else {
        listening := false;
      }
    }

    /** A scroll event reaches the attached listener. */
    method OnScroll()
      requires Valid() && listening
      modifies this`frameRef, this`queuedFrames, this`nextHandle
      ensures Valid()
      ensures queuedFrames == {old(nextHandle)} && frameRef == Some(old(nextHandle))
      ensures nextHandle == old(nextHandle) + 1
    {
      Schedule();
    }

    /**
     * The effect on mount: observe the section when it is attached, and
     * schedule one evaluation regardless.
     */
    method Mount(sectionAttached: bool)
      requires Valid() && !connected
      modifies this`connected, this`observing, this`frameRef, this`queuedFrames, this`nextHandle
      ensures Valid()
      ensures connected && observing == sectionAttached && listening == old(listening)
      ensures queuedFrames == {old(nextHandle)} && frameRef == Some(old(nextHandle))
      ensures nextHandle == old(nextHandle) + 1
      ensures activeStage == old(activeStage) && lastStage == old(lastStage)
    {
      connected := true;
      observing := sectionAttached;
      Schedule();
    }

    /**
     * The effect's cleanup: cancel the frame the ref holds, disconnect the
     * observer and detach the listener. Nothing is left to run.
     */
    method Teardown()
      requires Valid() && connected
      modifies this`queuedFrames, this`listening, this`observing, this`connected
      ensures Valid()
      ensures queuedFrames == {} && !listening && !observing && !connected
      ensures activeStage == old(activeStage) && lastStage == old(lastStage) && frameRef == old(frameRef)
    {
      if frameRef.Some? {
        queuedFrames := queuedFrames - {frameRef.value};
      }
      assert queuedFrames == {};
      observing := false;
      listening := false;
      connected := false;
    }
  }

  /**
   * A client: the centred example reaches stage 5 with one update, a second
   * evaluation of the same geometry changes nothing, an off-screen section
   * leaves the stage alone, and after teardown no frame is left to run.
   */
  method LifecycleScenario()
  {
    var c := new Controller();
    var h := c.nextHandle;
    c.Mount(true);
    CenteredExample();
    var first := c.RunFrame(h, Some(Rect(400.0, 600.0)), 1000.0);
    assert first && c.activeStage == 5;
    assert c.VisibleFlags() == [true, true, true, true, true];
    var second := c.Evaluate(Some(Rect(400.0, 600.0)), 1000.0);
    assert !second && c.activeStage == 5;
    var below := c.Evaluate(Some(Rect(900.0, 1000.0)), 800.0);
    assert !below && c.activeStage == 5;
    c.OnIntersection(true);
    c.OnScroll();
    c.Teardown();
    assert c.queuedFrames == {} && c.activeStage == 5;
  }
}
