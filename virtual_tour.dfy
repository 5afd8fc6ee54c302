/**
 * The stop-to-stop transition controller of src/Components/VirtualTour.jsx (`Scene`).
 *
 * React state is modelled as what the last render saw (`view`) plus the setter calls
 * made since (`queued`); `Render` commits them in order. A click's updates are rendered
 * before anything else runs; the updates made from the animation timeline wait for the
 * next render, which is why a frame can see `isTransitioning` with no transition data.
 */
module VirtualTour {
  import opened Options
  import opened Vectors
  import opened TourStops
  import opened Textures
  import RoomProjector

  /** `1 - Math.pow(1 - progress, 3)`: cubic ease-out. */
  function EaseOutCubic(p: real): (e: real)
    ensures p == 0.0 ==> e == 0.0
    ensures p == 1.0 ==> e == 1.0
    ensures 0.0 <= p <= 1.0 ==> 0.0 <= e <= 1.0
  {
    var q := 1.0 - p;
    CubeInUnit(q, q * q * q);
    1.0 - q * q * q
  }

  lemma CubeInUnit(q: real, c: real)
    requires c == q * q * q
    ensures 0.0 <= q <= 1.0 ==> 0.0 <= c <= 1.0
  {
    if 0.0 <= q <= 1.0 {
      MulNonNegative(q, q);
      MulNonNegative(q * q, q);
      MulNonNegative(q, 1.0 - q);
      assert q * q <= q;
      MulNonNegative(q * q, 1.0 - q);
      assert c <= q * q;
    }
  }

  /** The ease-out only moves forward: a later progress never gives an earlier position. */
  lemma EaseOutCubicMonotone(p: real, p': real)
    requires 0.0 <= p <= p' <= 1.0
    ensures EaseOutCubic(p) <= EaseOutCubic(p')
    ensures p < p' ==> EaseOutCubic(p) < EaseOutCubic(p')
  {
    var q, q' := 1.0 - p, 1.0 - p';
    assert q * q * q - q' * q' * q' == (q - q') * (q * q + q * q' + q' * q');
    MulNonNegative(q, q);
    MulNonNegative(q, q');
    MulNonNegative(q', q');
    MulNonNegative(q - q', q * q + q * q' + q' * q');
    if p < p' {
      MulPositive(q, q, q * q);
      MulPositive(q - q', q * q + q * q' + q' * q', (q - q') * (q * q + q * q' + q' * q'));
    }
  }

  /**
   * The end look-at point of a transition: 0.01 beyond the destination along the
   * normalized direction from the current stop to the destination. `len` is the length
   * of that direction, which the source obtains from `Math.sqrt`.
   */
  function EndTarget(from: Vec3, to: Vec3, len: real): (t: Vec3)
    requires IsLength(Sub(to, from), len)
    ensures FacesOnward(from, to, t)
  {
    LookAheadFacesOnward(from, to, len);
    Ahead(to, Normalize(Sub(to, from), len), 0.01)
  }

  lemma LookAheadFacesOnward(from: Vec3, to: Vec3, len: real)
    requires IsLength(Sub(to, from), len)
    ensures FacesOnward(from, to, Ahead(to, Normalize(Sub(to, from), len), 0.01))
  {
    var v := Sub(to, from);
    var n := Normalize(v, len);
    if v == Zero {
      ZeroLength(v, len);
      StandStill(from, to);
    } else {
      NonZeroLength(v, len);
      StepOnward(from, to, n, len);
    }
  }

  /** When the two stops coincide the normalized direction is zero and the target is the stop itself. */
  lemma StandStill(from: Vec3, to: Vec3)
    requires Sub(to, from) == Zero
    ensures FacesOnward(from, to, Ahead(to, Zero, 0.01))
  {
    assert Ahead(to, Zero, 0.01) == to;
    assert Sub(to, to) == Zero;
  }

  /** A 0.01 step from `to` along the unit vector `n` that points along `to - from` faces onward. */
  lemma StepOnward(from: Vec3, to: Vec3, n: Vec3, len: real)
    requires Sub(to, from) != Zero && len > 0.0 && Norm2(n) == 1.0
    requires Cross(n, Sub(to, from)) == Zero && Dot(n, Sub(to, from)) == len
    ensures FacesOnward(from, to, Ahead(to, n, 0.01))
  {
    var v := Sub(to, from);
    var d := Scale(0.01, n);
    assert Sub(Ahead(to, n, 0.01), to) == d;
    ScaleKeepsParallel(0.01, n, v);
    StepAlong(n, v, len);
  }

  /** A 0.01 step along the unit vector `n` has squared length 0.01² and points the way `v` does. */
  lemma StepAlong(n: Vec3, v: Vec3, len: real)
    requires len > 0.0 && Norm2(n) == 1.0 && Dot(n, v) == len
    ensures Norm2(Scale(0.01, n)) == 0.01 * 0.01 && Dot(Scale(0.01, n), v) > 0.0
  {
    ScaleNorm2(0.01, n);
    ScaleDot(0.01, n, v);
  }

  lemma ZeroLength(v: Vec3, len: real)
    requires IsLength(v, len) && v == Zero
    ensures len == 0.0
  {
    SquarePositive(len, len * len);
  }

  lemma NonZeroLength(v: Vec3, len: real)
    requires IsLength(v, len) && v != Zero
    ensures len > 0.0
  {
    Norm2Positive(v);
    SquarePositive(len, len * len);
  }

  /** `transitionDataRef.current` while a transition is live. */
  datatype TransitionData = TransitionData(
    startPosition: Vec3, endPosition: Vec3, startTarget: Vec3, endTarget: Vec3, progress: real)

  /** The four pieces of React state of `Scene`, as one render sees them. */
  datatype ViewState = ViewState(
    currentStopIndex: nat, nextStopIndex: Option<nat>, isTransitioning: bool, transitionProgress: real)

  /** One call of a state setter. */
  datatype StateUpdate =
    | SetCurrentStopIndex(index: nat)
    | SetNextStopIndex(next: Option<nat>)
    | SetIsTransitioning(on: bool)
    | SetTransitionProgress(value: real)

  function Apply(s: ViewState, u: StateUpdate): ViewState {
    match u
    case SetCurrentStopIndex(i) => s.(currentStopIndex := i)
    case SetNextStopIndex(n) => s.(nextStopIndex := n)
    case SetIsTransitioning(b) => s.(isTransitioning := b)
    case SetTransitionProgress(v) => s.(transitionProgress := v)
  }

  /** The state a render sees after the queued setter calls, applied in call order. */
  function ApplyAll(s: ViewState, us: seq<StateUpdate>): ViewState
    decreases |us|
  {
    if us == [] then s else Apply(ApplyAll(s, us[..|us| - 1]), us[|us| - 1])
  }

  /** Committing queued updates in two renders gives the same state as committing them in one. */
  lemma {:induction false} ApplyAllConcat(s: ViewState, a: seq<StateUpdate>, b: seq<StateUpdate>)
    ensures ApplyAll(s, a + b) == ApplyAll(ApplyAll(s, a), b)
    decreases |b|
  {
    if b == [] {
      assert a + b == a;
    } else {
      var b' := b[..|b| - 1];
      assert (a + b)[..|a + b| - 1] == a + b';
      assert (a + b)[|a + b| - 1] == b[|b| - 1];
      ApplyAllConcat(s, a, b');
    }
  }

  /** The two updates of an accepted request. */
  lemma ApplyStart(s: ViewState, toId: nat)
    ensures ApplyAll(s, [SetIsTransitioning(true), SetNextStopIndex(Some(toId))])
         == s.(isTransitioning := true, nextStopIndex := Some(toId))
  {
    var batch := [SetIsTransitioning(true), SetNextStopIndex(Some(toId))];
    assert batch[..1] == [SetIsTransitioning(true)] && batch[..1][..0] == [];
    assert ApplyAll(s, batch[..1]) == Apply(s, batch[0]);
    assert ApplyAll(s, batch) == Apply(ApplyAll(s, batch[..1]), batch[1]);
  }

  /** The four updates of a completion, whatever state they are applied to. */
  lemma ApplyCompletion(s: ViewState, toId: nat)
    ensures ApplyAll(s, [SetCurrentStopIndex(toId), SetNextStopIndex(None), SetTransitionProgress(0.0), SetIsTransitioning(false)])
         == ViewState(toId, None, false, 0.0)
  {
    var batch := [SetCurrentStopIndex(toId), SetNextStopIndex(None), SetTransitionProgress(0.0), SetIsTransitioning(false)];
    assert batch == [batch[0]] + [batch[1]] + [batch[2]] + [batch[3]];
    ApplyAllConcat(s, [batch[0]] + [batch[1]] + [batch[2]], [batch[3]]);
    ApplyAllConcat(s, [batch[0]] + [batch[1]], [batch[2]]);
    ApplyAllConcat(s, [batch[0]], [batch[1]]);
    ApplyAllConcat(s, [], [batch[0]]);
  }

  /** State that one render can see: the current stop is loaded, a pending stop exists exactly while transitioning. */
  ghost predicate Coherent(s: ViewState, n: nat) {
    && s.currentStopIndex < n
    && (s.nextStopIndex.Some? <==> s.isTransitioning)
    && (s.nextStopIndex.Some? ==> s.nextStopIndex.value < n && s.nextStopIndex.value != s.currentStopIndex)
    && 0.0 <= s.transitionProgress <= 1.0
    && (!s.isTransitioning ==> s.transitionProgress == 0.0)
  }

  /** A live transition from `from` to `to`, whose blend factor stands at `blend`. */
  ghost predicate SessionFits(d: TransitionData, from: Stop, to: Stop, blend: real) {
    && d.endPosition == to.position
    && FacesOnward(from.position, to.position, d.endTarget)
    && d.progress == blend
  }

  /** The props `Scene` passes to `RoomProjector`. */
  datatype ProjectorProps = ProjectorProps(currentStop: Stop, nextStop: Option<Stop>, transitionProgress: real)

  class Scene {
    const stops: seq<Stop>
    var view: ViewState
    var queued: seq<StateUpdate>
    /** `transitionDataRef.current`. */
    var session: Option<TransitionData>
    /** The animation timeline in flight, by the stop id its `onComplete` commits. */
    var timeline: Option<nat>
    /** `controlsRef.current !== null`. */
    var hasControls: bool
    /** `camera.position` and `controls.target`. */
    var cameraPosition: Vec3
    var orbitTarget: Vec3

    /** The state the next render will see. */
    function Latest(): ViewState
      reads this
    {
      ApplyAll(view, queued)
    }

    ghost predicate Valid()
      reads this
    {
      && |stops| > 0 && IdsAreIndices(stops)
      && Coherent(view, |stops|)
      && Coherent(Latest(), |stops|)
      && timeline == Latest().nextStopIndex
      && (session.Some? <==> timeline.Some?)
      && (session.Some? ==> view.isTransitioning && view.nextStopIndex == timeline)
      && (!view.isTransitioning ==> queued == [])
      && (session.Some? ==>
            SessionFits(session.value, stops[Latest().currentStopIndex], stops[timeline.value], Latest().transitionProgress))
    }

    /** The first render: at stop 0, idle, camera at stop 0's position (the Canvas camera), controls not yet attached. */
    constructor (stops: seq<Stop>)
      requires |stops| > 0 && IdsAreIndices(stops)
      ensures Valid()
      ensures this.stops == stops && view == ViewState(0, None, false, 0.0) && queued == []
      ensures session == None && timeline == None && !hasControls
      ensures cameraPosition == stops[0].position && orbitTarget == Zero
    {
      this.stops := stops;
      view := ViewState(0, None, false, 0.0);
      queued := [];
      session := None;
      timeline := None;
      hasControls := false;
      cameraPosition := stops[0].position;
      orbitTarget := Zero;
    }

    /** The orbit controls mount and `controlsRef.current` is set. */
    method AttachControls()
      requires Valid()
      modifies this`hasControls
      ensures Valid() && hasControls
    {
      hasControls := true;
    }

    /**
     * The mount effect: with controls attached and a second stop to face, the camera is
     * turned towards stop 1 (`lookDir` is its viewing direction afterwards) and the orbit
     * target is put 0.01 units ahead of it.
     */
    method MountEffect(lookDir: Vec3)
      requires Valid() && Norm2(lookDir) == 1.0
      modifies this`orbitTarget
      ensures Valid()
      ensures orbitTarget == if hasControls && |stops| > 1 then Ahead(cameraPosition, lookDir, 0.01) else old(orbitTarget)
      ensures hasControls && |stops| > 1 ==> Norm2(Sub(orbitTarget, cameraPosition)) == 0.01 * 0.01
    {
      if hasControls && |stops| > 1 {
        orbitTarget := Ahead(cameraPosition, lookDir, 0.01);
        AheadDistance(cameraPosition, lookDir, 0.01);
      }
    }

    /** The guard of `handleTransition`: controls present, not transitioning, a known id other than the current one. */
    predicate Accepts(toId: int): (r: bool)
      requires Valid()
      reads this
      ensures r <==> hasControls && !view.isTransitioning && 0 <= toId < |stops| && toId != view.currentStopIndex
    {
      FindStopByIndex(stops, toId);
      && hasControls && !view.isTransitioning
      && var toStop := FindStop(stops, toId);
         toStop.Some? && toStop.value.id != view.currentStopIndex
    }

    /**
     * `handleTransition(toId)`. A rejected request changes nothing; an accepted one enters
     * the transitioning state towards `toId` and records where the camera and its target
     * are now and where they must end.
     */
    method Request(toId: int, len: real)
      requires Valid()
      requires Accepts(toId) ==>
        IsLength(Sub(stops[toId].position, stops[view.currentStopIndex].position), len)
      modifies this
      ensures Valid()
      ensures !old(Accepts(toId)) ==> unchanged(this)
      ensures old(Accepts(toId)) ==>
        && view == old(view).(nextStopIndex := Some(toId as nat), isTransitioning := true)
        && queued == []
        && timeline == Some(toId as nat)
        && session == Some(TransitionData(
             old(cameraPosition), stops[toId].position, old(orbitTarget),
             EndTarget(stops[old(view.currentStopIndex)].position, stops[toId].position, len), 0.0))
        && hasControls && cameraPosition == old(cameraPosition) && orbitTarget == old(orbitTarget)
    {
      if view.isTransitioning || !hasControls {
        return;
      }
      var fromStop := stops[view.currentStopIndex];
      var toStop := FindStop(stops, toId);
      FindStopByIndex(stops, toId);
      if toStop.None? || toStop.value.id == view.currentStopIndex {
        return;
      }
      var to := toStop.value;
      var batch := [SetIsTransitioning(true), SetNextStopIndex(Some(to.id))];
      ApplyStart(view, to.id);
      queued := queued + batch;
      session := Some(TransitionData(
        cameraPosition, to.position, orbitTarget, EndTarget(fromStop.position, to.position, len), 0.0));
      timeline := Some(to.id);
      // the click's updates are rendered before the next frame or event
      assert queued == batch;
      view := ApplyAll(view, queued);
      queued := [];
    }

    /**
     * One tick of the timeline: the progress tween writes `transitionDataRef.current.progress`
     * in place and the blend tween calls `setTransitionProgress`. Both tweens share start,
     * duration and ease, so they carry the same eased value.
     */
    method Advance(eased: real)
      requires Valid() && session.Some? && 0.0 <= eased <= 1.0
      modifies this`session, this`queued
      ensures Valid()
      ensures session == Some(old(session.value).(progress := eased))
      ensures queued == old(queued) + [SetTransitionProgress(eased)]
      ensures Latest() == old(Latest()).(transitionProgress := eased)
    {
      session := Some(session.value.(progress := eased));
      queued := queued + [SetTransitionProgress(eased)];
      assert queued[..|queued| - 1] == old(queued);
    }

    /**
     * The timeline's `onComplete`: commit the destination, clear the pending stop and the
     * blend factor, leave the transitioning state, drop the transition data.
     */
    method Complete()
      requires Valid() && timeline.Some?
      modifies this`session, this`queued, this`timeline
      ensures Valid()
      ensures session == None && timeline == None && view == old(view)
      ensures queued == old(queued) + [SetCurrentStopIndex(old(timeline.value)), SetNextStopIndex(None),
                                       SetTransitionProgress(0.0), SetIsTransitioning(false)]
      ensures Latest() == ViewState(old(timeline.value), None, false, 0.0)
    {
      var toId := timeline.value;
      var batch := [SetCurrentStopIndex(toId), SetNextStopIndex(None), SetTransitionProgress(0.0), SetIsTransitioning(false)];
      ApplyAllConcat(view, queued, batch);
      ApplyCompletion(Latest(), toId);
      queued := queued + batch;
      session := None;
      timeline := None;
    }

    /** A re-render: the queued setter calls take effect, in order. */
    method Render()
      requires Valid()
      modifies this`view, this`queued
      ensures Valid()
      ensures view == old(Latest()) && queued == []
    {
      view := ApplyAll(view, queued);
      queued := [];
    }

    /**
     * The `useFrame` callback. `lookDir` is the camera's world direction, which the
     * camera object computes from its orientation.
     */
    method Frame(lookDir: Vec3)
      requires Valid() && Norm2(lookDir) == 1.0
      modifies this`cameraPosition, this`orbitTarget
      ensures Valid()
      ensures !hasControls || (view.isTransitioning && session.None?) ==>
        cameraPosition == old(cameraPosition) && orbitTarget == old(orbitTarget)
      ensures hasControls && view.isTransitioning && session.Some? ==>
        var d := session.value;
        var e := EaseOutCubic(d.progress);
        cameraPosition == Lerp(d.startPosition, d.endPosition, e) && orbitTarget == Lerp(d.startTarget, d.endTarget, e)
      ensures hasControls && !view.isTransitioning ==>
        cameraPosition == old(cameraPosition)
        && orbitTarget == Lerp(old(orbitTarget), Ahead(old(cameraPosition), lookDir, 0.01), 0.1)
        && Norm2(Sub(Ahead(old(cameraPosition), lookDir, 0.01), old(cameraPosition))) == 0.01 * 0.01
    {
      if !hasControls {
        return;
      }
      if view.isTransitioning && session.Some? {
        var d := session.value;
        var e := EaseOutCubic(d.progress);
        cameraPosition := Lerp(d.startPosition, d.endPosition, e);
        orbitTarget := Lerp(d.startTarget, d.endTarget, e);
      } else if !view.isTransitioning {
        var newTarget := Ahead(cameraPosition, lookDir, 0.01);
        AheadDistance(cameraPosition, lookDir, 0.01);
        orbitTarget := Lerp(orbitTarget, newTarget, 0.1);
      }
    }

    /** The `RoomProjector` props of this render. */
    function Props(): (p: ProjectorProps)
      requires Valid()
      reads this
      ensures p.currentStop == stops[view.currentStopIndex] && p.currentStop.id == view.currentStopIndex
      ensures p.nextStop.Some? <==> view.isTransitioning
      ensures p.nextStop.Some? ==> p.nextStop.value in stops && p.nextStop.value.id != p.currentStop.id
      ensures p.transitionProgress == view.transitionProgress
      ensures 0.0 <= p.transitionProgress <= 1.0
      ensures !view.isTransitioning ==> p.transitionProgress == 0.0
      ensures view.nextStopIndex.Some? ==> p.nextStop == Some(stops[view.nextStopIndex.value])
      ensures session.Some? ==>
        p.nextStop == Some(stops[timeline.value]) && p.nextStop.value.position == session.value.endPosition
    {
      ProjectorProps(
        stops[view.currentStopIndex],
        if view.nextStopIndex.Some? then Some(stops[view.nextStopIndex.value]) else None,
        view.transitionProgress)
    }

    /**
     * Orbit input is on exactly when idle; the hotspots are all stops but the current one,
     * in tour order, and none while transitioning. Each hotspot offered is a request the
     * guard accepts.
     */
    function Overlay(): (o: Overlay)
      requires Valid()
      reads this
      ensures o.orbitEnabled <==> !view.isTransitioning
      ensures view.isTransitioning ==> o.hotspots == []
      ensures !view.isTransitioning ==>
        o.hotspots == stops[..view.currentStopIndex] + stops[view.currentStopIndex + 1..]
      ensures hasControls ==> forall i :: 0 <= i < |o.hotspots| ==> Accepts(o.hotspots[i].id)
    {
      OverlayFor(stops, view.currentStopIndex, view.isTransitioning)
    }
  }

  /** The re-entrancy guard: while transition data is live, every request is dropped. */
  lemma InFlightRequestIsDropped(scene: Scene, toId: int)
    requires scene.Valid() && scene.session.Some?
    ensures !scene.Accepts(toId)
  {
  }

  /**
   * An idle scene hands the projector no next stop, so the shared material shows the
   * current stop's panorama alone, projected from its own capture point.
   */
  lemma IdleSceneShowsCurrentPanorama(
    scene: Scene, cache: map<string, HdrTexture>, sample: (HdrTexture?, Vec3) -> Vec3)
    requires scene.Valid() && !scene.view.isTransitioning
    requires scene.stops[scene.view.currentStopIndex].hdriPath in cache
    ensures
      var p := scene.Props();
      var currentMap := cache[p.currentStop.hdriPath];
      var nextMap := cache[RoomProjector.NextTexturePath(p.currentStop, p.nextStop)];
      RoomProjector.FragmentColor(
        RoomProjector.UniformsFor(p.currentStop, p.nextStop, p.transitionProgress, currentMap, nextMap), sample)
        == sample(currentMap, p.currentStop.position)
  {
    var p := scene.Props();
    RoomProjector.NoNextStopShowsCurrent(p.currentStop, p.transitionProgress, cache, sample);
  }
}
