/**
 * `RoomProjector`: every room surface of the tour is drawn with one shared projection
 * material. Its uniforms name the panorama of the current stop and, during a transition,
 * the panorama of the next stop with their capture points; the fragment colour blends the
 * two samples by the transition progress. `RoomMesh` draws the first mesh of a room's
 * glTF file, or nothing.
 */
module RoomProjector {
  import opened Options
  import opened Vectors
  import opened TourStops
  import opened Textures

  /** GLSL `mix` on one channel: `x * (1 - a) + y * a`. */
  function Mix(x: real, y: real, a: real): (r: real)
    ensures a == 0.0 ==> r == x
    ensures a == 1.0 ==> r == y
    ensures x == y ==> r == x
    ensures r == LerpReal(x, y, a)
  {
    x * (1.0 - a) + y * a
  }

  /** GLSL `mix` on an RGB colour, channel by channel. */
  function MixColor(c1: Vec3, c2: Vec3, a: real): (c: Vec3)
    ensures a == 0.0 ==> c == c1
    ensures a == 1.0 ==> c == c2
    ensures c1 == c2 ==> c == c1
    ensures c == Lerp(c1, c2, a)
  {
    Vec3(Mix(c1.x, c2.x, a), Mix(c1.y, c2.y, a), Mix(c1.z, c2.z, a))
  }

  /** The file the second loader call asks for: the next stop's panorama, or the current one's again. */
  function NextTexturePath(currentStop: Stop, nextStop: Option<Stop>): (p: string)
    ensures nextStop.None? ==> p == currentStop.hdriPath
    ensures nextStop.Some? ==> p == nextStop.value.hdriPath
  {
    if nextStop.Some? then nextStop.value.hdriPath else currentStop.hdriPath
  }

  /** The point the next panorama is projected from: the next stop's position, or the current one's. */
  function NextCapturePoint(currentStop: Stop, nextStop: Option<Stop>): (p: Vec3)
    ensures nextStop.None? ==> p == currentStop.position
    ensures nextStop.Some? ==> p == nextStop.value.position
  {
    if nextStop.Some? then nextStop.value.position else currentStop.position
  }

  /** The five uniform values of the shared material. */
  datatype Uniforms = Uniforms(
    tEquirect: HdrTexture?, uHdriCapturePoint: Vec3,
    tEquirectNext: HdrTexture?, uHdriCapturePointNext: Vec3,
    uTransitionProgress: real)

  /** The uniforms one render writes for the given props and loaded panoramas. */
  function UniformsFor(
    currentStop: Stop, nextStop: Option<Stop>, transitionProgress: real,
    currentMap: HdrTexture, nextMap: HdrTexture): (u: Uniforms)
    ensures u.tEquirect == currentMap && u.tEquirectNext == nextMap
    ensures u.uHdriCapturePoint == currentStop.position
    ensures u.uHdriCapturePointNext == NextCapturePoint(currentStop, nextStop)
    ensures u.uTransitionProgress == transitionProgress
    ensures nextStop.None? && nextMap == currentMap ==>
      u.tEquirectNext == u.tEquirect && u.uHdriCapturePointNext == u.uHdriCapturePoint
  {
    Uniforms(currentMap, currentStop.position, nextMap, NextCapturePoint(currentStop, nextStop), transitionProgress)
  }

  /**
   * The fragment shader's output colour for uniforms `u`, where `sample(t, p)` is the colour
   * panorama `t` shows at this fragment when projected from `p`. At progress 0 the current
   * panorama shows alone, at 1 the next one; when both uniforms pairs name the same panorama
   * and point the progress has no effect.
   */
  function FragmentColor(u: Uniforms, sample: (HdrTexture?, Vec3) -> Vec3): (c: Vec3)
    ensures u.uTransitionProgress == 0.0 ==> c == sample(u.tEquirect, u.uHdriCapturePoint)
    ensures u.uTransitionProgress == 1.0 ==> c == sample(u.tEquirectNext, u.uHdriCapturePointNext)
    ensures u.tEquirectNext == u.tEquirect && u.uHdriCapturePointNext == u.uHdriCapturePoint ==>
      c == sample(u.tEquirect, u.uHdriCapturePoint)
  {
    var color1 := sample(u.tEquirect, u.uHdriCapturePoint);
    var color2 := sample(u.tEquirectNext, u.uHdriCapturePointNext);
    MixColor(color1, color2, u.uTransitionProgress)
  }

  /** With no next stop the projection shows the current panorama alone, whatever the progress. */
  lemma NoNextStopShowsCurrent(
    currentStop: Stop, transitionProgress: real, cache: map<string, HdrTexture>,
    sample: (HdrTexture?, Vec3) -> Vec3)
    requires currentStop.hdriPath in cache
    ensures
      var currentMap := cache[currentStop.hdriPath];
      var nextMap := cache[NextTexturePath(currentStop, None)];
      FragmentColor(UniformsFor(currentStop, None, transitionProgress, currentMap, nextMap), sample)
        == sample(currentMap, currentStop.position)
  {
  }

  /** The `ShaderMaterial` created once with `useMemo`, whose uniform values each render overwrites. */
  class ProjectionMaterial {
    var tEquirect: HdrTexture?
    var uHdriCapturePoint: Vec3
    var tEquirectNext: HdrTexture?
    var uHdriCapturePointNext: Vec3
    var uTransitionProgress: real

    constructor ()
      ensures Snapshot() == Uniforms(null, Zero, null, Zero, 0.0)
    {
      tEquirect := null;
      uHdriCapturePoint := Zero;
      tEquirectNext := null;
      uHdriCapturePointNext := Zero;
      uTransitionProgress := 0.0;
    }

    /** The current uniform values. */
    function Snapshot(): Uniforms
      reads this
    {
      Uniforms(tEquirect, uHdriCapturePoint, tEquirectNext, uHdriCapturePointNext, uTransitionProgress)
    }
  }

  /** The props of one `RoomMesh` element in the group. */
  datatype RoomMeshElement = RoomMeshElement(key: nat, meshPath: string, material: ProjectionMaterial, position: Vec3)

  /** `tourStops.map(...)`: one room surface per stop, in stop order, all with the same material. */
  function Surfaces(stops: seq<Stop>, material: ProjectionMaterial): (r: seq<RoomMeshElement>)
    ensures |r| == |stops|
    ensures forall i :: 0 <= i < |r| ==>
      r[i].key == stops[i].id && r[i].meshPath == stops[i].meshPath && r[i].position == stops[i].position
    ensures forall i :: 0 <= i < |r| ==> r[i].material == material
    decreases |stops|
  {
    if stops == [] then []
    else
      [RoomMeshElement(stops[0].id, stops[0].meshPath, material, stops[0].position)]
        + Surfaces(stops[1..], material)
  }

  /** A node of a loaded glTF scene graph, in `Object.values(nodes)` order. */
  datatype GltfNode = GltfNode(name: string, isMesh: bool, geometry: nat)

  /** `find(node => node.isMesh)`, as the position of the node found. */
  function FirstMesh(nodes: seq<GltfNode>): (r: Option<nat>)
    ensures r.None? <==> forall j :: 0 <= j < |nodes| ==> !nodes[j].isMesh
    ensures r.Some? ==>
      r.value < |nodes| && nodes[r.value].isMesh && forall j :: 0 <= j < r.value ==> !nodes[j].isMesh
    decreases |nodes|
  {
    if nodes == [] then None
    else if nodes[0].isMesh then Some(0)
    else
      match FirstMesh(nodes[1..])
      case None => None
      case Some(i) => Some(i + 1)
  }

  /** A drawn room surface: the mesh's geometry with the shared material at the stop's position. */
  datatype MeshElement = MeshElement(geometry: nat, material: ProjectionMaterial, position: Vec3)

  /** What `RoomMesh` renders: a mesh, or nothing together with the warning it logs. */
  datatype RoomMeshOutput = Rendered(mesh: MeshElement) | Skipped(warning: string)

  /**
   * `RoomMesh`: the first mesh node's geometry drawn with the given material and position;
   * a file without a mesh draws nothing and warns, naming the file.
   */
  function RoomMesh(meshPath: string, nodes: seq<GltfNode>, material: ProjectionMaterial, position: Vec3): (r: RoomMeshOutput)
    ensures r.Skipped? <==> forall j :: 0 <= j < |nodes| ==> !nodes[j].isMesh
    ensures r.Skipped? ==> r.warning == "No mesh found in GLTF file: " + meshPath
    ensures r.Rendered? ==>
      && r.mesh.material == material && r.mesh.position == position
      && exists i :: 0 <= i < |nodes| && nodes[i].isMesh && nodes[i].geometry == r.mesh.geometry
           && forall j :: 0 <= j < i ==> !nodes[j].isMesh
  {
    match FirstMesh(nodes)
    case None => Skipped("No mesh found in GLTF file: " + meshPath)
    case Some(i) => Rendered(MeshElement(nodes[i].geometry, material, position))
  }

  /** One mounted `RoomProjector`, holding its memoised material. */
  class Projector {
    const sharedMaterial: ProjectionMaterial

    constructor ()
      ensures fresh(sharedMaterial)
      ensures sharedMaterial.Snapshot() == Uniforms(null, Zero, null, Zero, 0.0)
    {
      sharedMaterial := new ProjectionMaterial();
    }

    /**
     * One render. `cache` stands for the loader cache, which hands out one texture object
     * per path. The current panorama is marked sRGB, the next one only when there is a
     * next stop; the uniforms are overwritten with exactly the values of these props; the
     * group holds one surface per stop. No other texture changes.
     */
    method Render(
      tourStops: seq<Stop>, currentStop: Stop, nextStop: Option<Stop>, transitionProgress: real,
      cache: map<string, HdrTexture>)
      returns (elements: seq<RoomMeshElement>)
      requires currentStop.hdriPath in cache && NextTexturePath(currentStop, nextStop) in cache
      modifies sharedMaterial, cache.Values
      ensures cache[currentStop.hdriPath].colorSpace == SRGBColorSpace
      ensures nextStop.Some? ==> cache[nextStop.value.hdriPath].colorSpace == SRGBColorSpace
      ensures forall t :: t in cache.Values ==>
        t == cache[currentStop.hdriPath] || (nextStop.Some? && t == cache[nextStop.value.hdriPath])
        || t.colorSpace == old(t.colorSpace)
      ensures forall t :: t in cache.Values ==> t.mapping == old(t.mapping)
      ensures sharedMaterial.Snapshot() == UniformsFor(
        currentStop, nextStop, transitionProgress,
        cache[currentStop.hdriPath], cache[NextTexturePath(currentStop, nextStop)])
      ensures nextStop.None? ==>
        sharedMaterial.tEquirectNext == sharedMaterial.tEquirect
        && sharedMaterial.uHdriCapturePointNext == sharedMaterial.uHdriCapturePoint
      ensures elements == Surfaces(tourStops, sharedMaterial)
    {
      var currentHdriMap := cache[currentStop.hdriPath];
      currentHdriMap.colorSpace := SRGBColorSpace;
      var nextHdriMap := cache[NextTexturePath(currentStop, nextStop)];
      if nextStop.Some? {
        nextHdriMap.colorSpace := SRGBColorSpace;
      }
      sharedMaterial.tEquirect := currentHdriMap;
      sharedMaterial.uHdriCapturePoint := currentStop.position;
      sharedMaterial.tEquirectNext := nextHdriMap;
      sharedMaterial.uHdriCapturePointNext := if nextStop.Some? then nextStop.value.position else currentStop.position;
      sharedMaterial.uTransitionProgress := transitionProgress;
      elements := Surfaces(tourStops, sharedMaterial);
    }
  }
}
