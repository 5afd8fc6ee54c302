/**
 * The older TypeScript `Scene`: two panorama spheres whose materials swap roles
 * at each transition. The incoming panorama is loaded into the hidden material,
 * then one timeline moves the camera and its target and cross-fades the two
 * opacities; on completion the hidden material becomes the shown one.
 */
module VirtualTourLegacy {
  import opened Options
  import opened Vectors
  import opened TourStops
  import opened Textures

  /** A `MeshBasicMaterial` on one of the panorama spheres: its texture, refresh flag and opacity. */
  class Material {
    /** The material's `map`. */
    var texture: HdrTexture?
    var needsUpdate: bool
    var opacity: real

    constructor (opacity: real)
      ensures texture == null && !needsUpdate && this.opacity == opacity
    {
      texture := null;
      needsUpdate := false;
      this.opacity := opacity;
    }
  }

  /** Where the camera and its target were when the cross-fade timeline started. */
  datatype Crossfade = Crossfade(startPosition: Vec3, startTarget: Vec3)

  /**
   * A transition in flight: its destination, where the camera must end, and, once the
   * destination panorama has loaded, the running timeline. The materials the request
   * captured as active and inactive stay so throughout, since the index only flips on
   * completion.
   */
  datatype Flight = Flight(toStop: nat, cameraEnd: Vec3, crossfade: Option<Crossfade>)

  class Scene {
    const stops: seq<Stop>
    /** The `useMemo` pair of sphere materials. */
    const materials: seq<Material>
    var currentStopIndex: nat
    var isTransitioning: bool
    var activeMaterialIndex: nat
    var flight: Option<Flight>
    /** `controlsRef.current !== null`. */
    var hasControls: bool
    /** `camera.position` and `controls.target`. */
    var cameraPosition: Vec3
    var orbitTarget: Vec3

    function Active(): Material
      requires |materials| == 2 && activeMaterialIndex <= 1
      reads this
    {
      materials[activeMaterialIndex]
    }

    function Inactive(): Material
      requires |materials| == 2 && activeMaterialIndex <= 1
      reads this
    {
      materials[1 - activeMaterialIndex]
    }

    /**
     * The two spheres always add up to one full panorama: the opacities sum to one,
     * and the shown sphere is fully opaque except while a cross-fade runs.
     */
    ghost predicate Valid()
      reads this, materials
    {
      && |stops| > 0 && IdsAreIndices(stops)
      && |materials| == 2 && materials[0] != materials[1]
      && activeMaterialIndex <= 1
      && currentStopIndex < |stops|
      && (isTransitioning <==> flight.Some?)
      && (flight.Some? ==> flight.value.toStop < |stops| && flight.value.toStop != currentStopIndex)
      && 0.0 <= Inactive().opacity <= 1.0
      && Active().opacity + Inactive().opacity == 1.0
      && (flight.None? || flight.value.crossfade.None? ==> Active().opacity == 1.0)
    }

    /** The first render: stop 0, material 0 shown and material 1 transparent, camera at stop 0. */
    constructor (stops: seq<Stop>)
      requires |stops| > 0 && IdsAreIndices(stops)
      ensures Valid() && fresh(materials)
      ensures this.stops == stops && currentStopIndex == 0 && !isTransitioning && flight == None
      ensures activeMaterialIndex == 0 && !hasControls
      ensures materials[0].opacity == 1.0 && materials[1].opacity == 0.0
      ensures materials[0].texture == null && materials[1].texture == null
      ensures cameraPosition == stops[0].position && orbitTarget == Zero
    {
      this.stops := stops;
      var shown := new Material(1.0);
      var hidden := new Material(0.0);
      materials := [shown, hidden];
      currentStopIndex := 0;
      isTransitioning := false;
      activeMaterialIndex := 0;
      flight := None;
      hasControls := false;
      cameraPosition := stops[0].position;
      orbitTarget := Zero;
    }

    /** The orbit controls mount and `controlsRef.current` is set. */
    method AttachControls()
      requires Valid()
      modifies this`hasControls
      ensures Valid() && hasControls
    {
      hasControls := true;
    }

    /** The mount effect, up to the load request: the orbit target is put on stop 0 when controls exist. */
    method MountEffect()
      requires Valid()
      modifies this`orbitTarget
      ensures Valid()
      ensures orbitTarget == if hasControls then stops[0].position else old(orbitTarget)
    {
      if hasControls {
        orbitTarget := stops[0].position;
      }
    }

    /**
     * The mount effect's load callback: the first panorama goes onto material 0,
     * whatever its role is by then; no opacity changes.
     */
    method InitialTextureLoaded(loaded: HdrTexture)
      requires Valid()
      requires loaded.path == stops[0].hdriPath
      modifies loaded, materials[0]
      ensures Valid()
      ensures loaded.mapping == EquirectangularReflectionMapping && loaded.colorSpace == old(loaded.colorSpace)
      ensures materials[0].texture == loaded && materials[0].needsUpdate
      ensures materials[0].opacity == old(materials[0].opacity)
    {
      loaded.mapping := EquirectangularReflectionMapping;
      materials[0].texture := loaded;
      materials[0].needsUpdate := true;
    }

    /**
     * The body of every render with controls attached: the orbit target is placed one
     * unit ahead of the camera along its viewing direction `lookDir`.
     */
    method RenderPass(lookDir: Vec3)
      requires Valid() && Norm2(lookDir) == 1.0
      modifies this`orbitTarget
      ensures Valid()
      ensures orbitTarget == if hasControls then Add(cameraPosition, lookDir) else old(orbitTarget)
      ensures hasControls ==> Norm2(Sub(orbitTarget, cameraPosition)) == 1.0
    {
      if hasControls {
        orbitTarget := Add(cameraPosition, lookDir);
        AheadDistance(cameraPosition, lookDir, 1.0);
      }
    }

    /** The guard of `handleTransition`: idle, controls present, a known id other than the current one. */
    predicate Accepts(toId: int): (r: bool)
      requires Valid()
      reads this, materials
      ensures r <==> hasControls && !isTransitioning && 0 <= toId < |stops| && toId != currentStopIndex
    {
      FindStopByIndex(stops, toId);
      && !isTransitioning && hasControls
      && var toStop := FindStop(stops, toId);
         toStop.Some? && toStop.value.id != currentStopIndex
    }

    /**
     * `handleTransition(toId)` with the camera looking along `lookDir`. A rejected request
     * changes nothing. An accepted one enters the transitioning state and fixes where the
     * camera must end: one unit short of the destination, back along the viewing direction.
     * Neither material changes until the destination panorama has loaded.
     */
    method Request(toId: int, lookDir: Vec3)
      requires Valid() && Norm2(lookDir) == 1.0
      modifies this
      ensures Valid()
      ensures !old(Accepts(toId)) ==> unchanged(this)
      ensures old(Accepts(toId)) ==>
        && isTransitioning
        && flight == Some(Flight(toId as nat, Add(stops[toId].position, Scale(-1.0, lookDir)), None))
        && currentStopIndex == old(currentStopIndex) && activeMaterialIndex == old(activeMaterialIndex)
        && hasControls && cameraPosition == old(cameraPosition) && orbitTarget == old(orbitTarget)
        && Norm2(Sub(stops[toId].position, flight.value.cameraEnd)) == 1.0
    {
      if isTransitioning || !hasControls {
        return;
      }
      var toStop := FindStop(stops, toId);
      FindStopByIndex(stops, toId);
      if toStop.None? || toStop.value.id == currentStopIndex {
        return;
      }
      var to := toStop.value;
      isTransitioning := true;
      var newTargetPosition := Add(to.position, Scale(-1.0, lookDir));
      assert Sub(to.position, newTargetPosition) == Scale(1.0, lookDir);
      ScaleNorm2(1.0, lookDir);
      flight := Some(Flight(to.id, newTargetPosition, None));
    }

    /**
     * The destination panorama has loaded: it goes onto the hidden material only, and the
     * timeline starts from where the camera and its target are now. The shown material is
     * untouched, so the current panorama stays fully visible.
     */
    method TextureLoaded(loaded: HdrTexture)
      requires Valid() && flight.Some? && flight.value.crossfade.None?
      requires loaded.path == stops[flight.value.toStop].hdriPath
      modifies this`flight, loaded, Inactive()
      ensures Valid()
      ensures loaded.mapping == EquirectangularReflectionMapping && loaded.colorSpace == old(loaded.colorSpace)
      ensures Inactive().texture == loaded && Inactive().needsUpdate && Inactive().opacity == 0.0
      ensures Active().texture == old(Active().texture) && Active().needsUpdate == old(Active().needsUpdate)
      ensures Active().opacity == 1.0
      ensures flight == Some(old(flight.value).(crossfade := Some(Crossfade(cameraPosition, orbitTarget))))
    {
      var inactiveMaterial := Inactive();
      loaded.mapping := EquirectangularReflectionMapping;
      inactiveMaterial.texture := loaded;
      inactiveMaterial.needsUpdate := true;
      flight := Some(flight.value.(crossfade := Some(Crossfade(cameraPosition, orbitTarget))));
    }

    /**
     * One tick of the timeline at eased progress `eased`. The four tweens share start,
     * duration and ease, so one value drives them all: the camera and its target move
     * along straight lines towards their ends while the shown sphere fades out exactly
     * as fast as the hidden one fades in.
     */
    method Tween(eased: real)
      requires Valid() && flight.Some? && flight.value.crossfade.Some?
      requires 0.0 <= eased <= 1.0
      modifies this`cameraPosition, this`orbitTarget, materials
      ensures Valid()
      ensures cameraPosition ==
        Lerp(flight.value.crossfade.value.startPosition, flight.value.cameraEnd, eased)
      ensures orbitTarget ==
        Lerp(flight.value.crossfade.value.startTarget, stops[flight.value.toStop].position, eased)
      ensures Active().opacity == 1.0 - eased && Inactive().opacity == eased
      ensures forall m :: m in materials ==> m.texture == old(m.texture) && m.needsUpdate == old(m.needsUpdate)
    {
      var f := flight.value;
      cameraPosition := Lerp(f.crossfade.value.startPosition, f.cameraEnd, eased);
      orbitTarget := Lerp(f.crossfade.value.startTarget, stops[f.toStop].position, eased);
      Active().opacity := LerpReal(1.0, 0.0, eased);
      Inactive().opacity := LerpReal(0.0, 1.0, eased);
    }

    /**
     * The timeline's last tick and its `onComplete`: every tween is at its end value, the
     * materials swap roles so the one holding the new panorama is shown, and the scene is
     * idle at the destination.
     */
    method Complete()
      requires Valid() && flight.Some? && flight.value.crossfade.Some?
      modifies this, materials
      ensures Valid()
      ensures currentStopIndex == old(flight.value.toStop) && !isTransitioning && flight == None
      ensures activeMaterialIndex == 1 - old(activeMaterialIndex) && Active() == old(Inactive())
      ensures Active().opacity == 1.0 && Inactive().opacity == 0.0
      ensures cameraPosition == old(flight.value.cameraEnd)
      ensures orbitTarget == stops[currentStopIndex].position
      ensures hasControls == old(hasControls)
      ensures forall m :: m in materials ==> m.texture == old(m.texture) && m.needsUpdate == old(m.needsUpdate)
    {
      var f := flight.value;
      cameraPosition := f.cameraEnd;
      orbitTarget := stops[f.toStop].position;
      Active().opacity := 0.0;
      Inactive().opacity := 1.0;
      activeMaterialIndex := if activeMaterialIndex == 0 then 1 else 0;
      currentStopIndex := f.toStop;
      isTransitioning := false;
      flight := None;
    }

    /**
     * Orbit input is on exactly when idle; the hotspots are all stops but the current one,
     * in tour order, and none while transitioning. Each hotspot offered is a request the
     * guard accepts.
     */
    function Overlay(): (o: Overlay)
      requires Valid()
      reads this, materials
      ensures o.orbitEnabled <==> !isTransitioning
      ensures isTransitioning ==> o.hotspots == []
      ensures !isTransitioning ==> o.hotspots == stops[..currentStopIndex] + stops[currentStopIndex + 1..]
      ensures hasControls ==> forall i :: 0 <= i < |o.hotspots| ==> Accepts(o.hotspots[i].id)
    {
      OverlayFor(stops, currentStopIndex, isTransitioning)
    }
  }
}
