# Virtual tour transitions, modelled in Dafny

The tour moves a camera between fixed stops, each with an HDR panorama and a room mesh.
This project models three pieces of it:

- **The JavaScript `Scene`** (`VirtualTour.jsx`). Clicking a hotspot starts one camera
  transition towards another stop. The re-entrancy guard drops every further click until
  the animation timeline commits the arrival. Each frame either interpolates the camera
  and its orbit target with a cubic ease-out, or keeps the target just ahead of the camera.
  Hotspots and orbit input exist only while idle.
- **The older TypeScript `Scene`** (`VirtualTour.tsx`). It uses two panorama sphere
  materials. The destination panorama is loaded into the hidden material. One timeline
  then moves the camera and cross-fades the two opacities. On completion the two
  materials swap roles.
- **`RoomProjector`** (`RoomProjector.jsx`). All room meshes share one projection
  material. Its uniforms are overwritten from the props on every render. With no next
  stop, the "next" texture and capture point fall back to the current stop's. The fragment
  colour is `mix(current sample, next sample, progress)`. `RoomMesh` draws the first mesh
  node of a room's glTF file, or nothing and a warning.

Modules:

- `Vectors`: the THREE.Vector3 operations used, over exact reals.
- `TourStops`: the stop record, `find` by id, the hotspot filter and the overlay.
- `Textures`: loaded texture objects.
- `VirtualTour`: the JavaScript `Scene` as a class.
- `VirtualTourLegacy`: the TypeScript `Scene` as a class, with two `Material` objects.
- `RoomProjector`: the projector's selections, its blend, its material class and `RoomMesh`.

How the model stands in for things outside the code:

- **React state, JavaScript scene.** `view` is what the last render saw. `queued` holds the
  setter calls made since then. `Render` commits them in call order. A click is committed
  before the next frame. The timeline's updates wait for the next render. So a frame can
  see `isTransitioning` while the transition data is already gone, and then it does nothing.
  The four setter calls of `onComplete` are assumed to be batched into one render (React 18
  batches updates made outside event handlers). The invariant that the next stop differs
  from the current one relies on this.
- **React state, TypeScript scene.** Setters take effect at once.
- **The gsap timeline.** Only what it writes is modelled. Its tweens share start,
  duration and ease, so one eased value `eased` drives them all. Completion is its own
  step (`Complete`).
- **Browser and engine values.** `camera.getWorldDirection` is passed in as `lookDir`. three.js returns a normalised vector there, so every method that takes `lookDir` requires `Norm2(lookDir) == 1.0`.
  `Vector3.length()` is passed in as `len`, with `len * len` equal to the squared length.
- **Stop ids.** Both scenes treat a stop's id as its index in `tourStops`. This holds for
  both data files (`src/tourData.js`: ids 0 to 10 in order; `src/tourData.ts`: ids 0 to 3
  in order). The model requires it (`IdsAreIndices`) and keeps it as a class invariant.

## Model

| member | source | states |
|---|---|---|
| TourStops.FindStop | src/Components/VirtualTour.jsx:94 | `find` by id: a found stop is the first in the list with that id; nothing is found exactly when no stop has that id |
| TourStops.FindStopByIndex | src/tourData.js:5-195 | with ids equal to indices, finding id `k` gives `stops[k]` for `k` in range and nothing otherwise |
| TourStops.DisplayedStops | src/Components/VirtualTour.jsx:164 | the filter never grows the list and keeps no stop with the current id |
| TourStops.DisplayedStopsMembers | src/Components/VirtualTour.jsx:164 | a stop is displayed exactly when it is in the list and its id differs from the current one |
| TourStops.DisplayedStopsRemovesCurrent | src/Components/VirtualTour.jsx:162-164 | with ids equal to indices, the displayed stops are the list with exactly the current stop removed, in order |
| TourStops.OverlayFor | src/Components/VirtualTour.jsx:172-194 | orbit input is on exactly when idle; hotspots are none while transitioning, otherwise every stop but the current one in order, each with an id other than the current in range |
| Vectors.LerpReal | src/Components/VirtualTour.tsx:135-136 | scalar tween: the start value at 0, the end value at 1, constant for equal ends, and between the ends for `t` in [0, 1] |
| Vectors.Lerp | src/Components/VirtualTour.jsx:60-72 | `lerpVectors`: the start at 0, the end at 1, a fixed point for equal ends, and the offset from the start is `t` times the whole displacement |
| Vectors.AheadDistance | src/Components/VirtualTour.jsx:77-82 | for a unit direction, the point `k` units ahead lies at squared distance `k * k` from the start |
| Vectors.Normalize | src/Components/VirtualTour.jsx:108-110 | `normalize()` (division by `length || 1`): a zero vector stays zero; otherwise the result has unit length, is parallel to the input and points the same way |
| VirtualTour.EaseOutCubic | src/Components/VirtualTour.jsx:57 | `1 - (1 - p)^3` is 0 at 0 and 1 at 1, and stays in [0, 1] for `p` in [0, 1] |
| VirtualTour.EaseOutCubicMonotone | src/Components/VirtualTour.jsx:57 | the ease-out is monotone on [0, 1], strictly so for strictly increasing progress |
| VirtualTour.EndTarget | src/Components/VirtualTour.jsx:107-114 | the end target faces onward: 0.01 units past the destination on the ray from the origin stop through it, or the destination itself when both stops coincide |
| VirtualTour.Scene.constructor | src/Components/VirtualTour.jsx:20-26 | the first render: stop 0, no next stop, idle, progress 0, no transition data, camera at stop 0, no controls |
| VirtualTour.Scene.AttachControls | src/Components/VirtualTour.jsx:168-177 | the orbit controls mount, and the invariant is kept |
| VirtualTour.Scene.MountEffect | src/Components/VirtualTour.jsx:28-43 | with controls and at least two stops, the target is put on the camera's new viewing direction, 0.01 units from the camera; otherwise nothing changes |
| VirtualTour.Scene.Accepts | src/Components/VirtualTour.jsx:90-95 | a request is accepted exactly when controls exist, the scene is idle, and the id names a stop other than the current one |
| VirtualTour.Scene.Request | src/Components/VirtualTour.jsx:90-123 | a rejected request leaves the whole scene unchanged; an accepted one sets transitioning and the next stop, and records the camera and target at the click, the destination, the onward end target and progress 0 |
| VirtualTour.Scene.Advance | src/Components/VirtualTour.jsx:136-159 | one timeline tick writes the eased value into the transition data and queues the same value as the blend factor; the invariant is kept |
| VirtualTour.Scene.Complete | src/Components/VirtualTour.jsx:126-134 | the commit clears the transition data and queues updates that leave the next render idle at the destination, with no next stop and blend 0 |
| VirtualTour.Scene.Render | src/Components/VirtualTour.jsx:19-23 | a re-render commits every queued setter call in order |
| VirtualTour.Scene.Frame | src/Components/VirtualTour.jsx:45-88 | no controls, or transitioning without data: nothing moves; transitioning with data: camera and target lie at the eased point of their straight paths; idle: camera still, target one tenth of the way to the point on the viewing direction 0.01 units from the camera |
| VirtualTour.Scene.Props | src/Components/VirtualTour.jsx:162-184 | the projector gets the current stop; a next stop exactly while transitioning, different from the current one, namely `stops[nextStopIndex]`; while transition data exists that is the stop the camera flies to; a blend equal to the state's `transitionProgress`, in [0, 1] and 0 when idle |
| VirtualTour.Scene.Overlay | src/Components/VirtualTour.jsx:172-194 | orbit input only when idle; hotspots for every other stop when idle, none while transitioning; every hotspot offered is a request the guard accepts |
| VirtualTour.InFlightRequestIsDropped | src/Components/VirtualTour.jsx:91 | while transition data exists, no request is accepted, so the session in flight is never overwritten |
| VirtualTour.IdleSceneShowsCurrentPanorama | src/Components/VirtualTour.jsx:179-184 | an idle scene's props make the projection show the current stop's panorama alone, from its own capture point |
| VirtualTourLegacy.Scene.constructor | src/Components/VirtualTour.tsx:45-69 | the first render: stop 0, idle, material 0 opaque and shown, material 1 fully transparent, neither textured |
| VirtualTourLegacy.Scene.AttachControls | src/Components/VirtualTour.tsx:145 | the orbit controls mount, and the invariant is kept |
| VirtualTourLegacy.Scene.MountEffect | src/Components/VirtualTour.tsx:73-83 | the target is placed on stop 0 when controls exist, and is otherwise left alone |
| VirtualTourLegacy.Scene.InitialTextureLoaded | src/Components/VirtualTour.tsx:85-89 | the first panorama is mapped equirectangularly and goes onto material 0, with no opacity changed |
| VirtualTourLegacy.Scene.RenderPass | src/Components/VirtualTour.tsx:50-62 | with controls, the target is put on the camera's viewing direction, one unit from the camera |
| VirtualTourLegacy.Scene.Accepts | src/Components/VirtualTour.tsx:93-97 | a request is accepted exactly when idle with controls and the id names a stop other than the current one |
| VirtualTourLegacy.Scene.Request | src/Components/VirtualTour.tsx:93-111 | a rejected request changes nothing; an accepted one sets transitioning and fixes the camera's end against the viewing direction, one unit from the destination, with both materials untouched |
| VirtualTourLegacy.Scene.TextureLoaded | src/Components/VirtualTour.tsx:113-120 | the destination panorama goes onto the hidden material only, the shown one stays opaque and unchanged, and the cross-fade starts from the camera and target as they are |
| VirtualTourLegacy.Scene.Tween | src/Components/VirtualTour.tsx:128-136 | at eased progress `e` the camera and target lie on their straight paths and the opacities are `1 - e` and `e`, so together they stay at one |
| VirtualTourLegacy.Scene.Complete | src/Components/VirtualTour.tsx:121-125 | at the end the camera and target are at their end points; the materials swap roles so that the one holding the new panorama is shown and opaque; the scene is idle at the destination |
| VirtualTourLegacy.Scene.Overlay | src/Components/VirtualTour.tsx:140-164 | orbit input only when idle; hotspots for every other stop when idle, none while transitioning; each hotspot is an accepted request |
| RoomProjector.Mix | src/Components/RoomProjector.jsx:95-96 | `mix` gives the first value at 0, the second at 1, either for equal inputs, and equals the linear interpolation |
| RoomProjector.MixColor | src/Components/RoomProjector.jsx:95-96 | the channel-wise `mix` of two colours gives the first at 0, the second at 1, the colour itself when both agree, and equals `lerp` |
| RoomProjector.UniformsFor | src/Components/RoomProjector.jsx:106-112 | with no next stop and the cached current texture in both loader calls, the next texture and capture point coincide with the current ones, which is what makes the blend a self-blend |
| RoomProjector.FragmentColor | src/Components/RoomProjector.jsx:91-96 | the current sample at progress 0, the next sample at 1, and the current sample at any progress when both uniform pairs agree |
| RoomProjector.NoNextStopShowsCurrent | src/Components/RoomProjector.jsx:42-45 | with no next stop, both loader calls hit the same cached texture and the projection shows the current panorama for every progress |
| RoomProjector.ProjectionMaterial.constructor | src/Components/RoomProjector.jsx:52-62 | the material starts with no textures, zero capture points and progress 0 |
| RoomProjector.Projector.constructor | src/Components/RoomProjector.jsx:52-103 | the memoised material is created once, fresh, at its initial uniforms |
| RoomProjector.Projector.Render | src/Components/RoomProjector.jsx:37-48 | the current map is set to sRGB and the next only when there is a next stop; no other texture changes; the uniforms equal exactly the props; with no next stop both uniform pairs coincide; the group is `Surfaces` |
| RoomProjector.Surfaces | src/Components/RoomProjector.jsx:115-124 | one surface per stop in stop order, each with the stop's id, mesh path and position, all with the same material |
| RoomProjector.FirstMesh | src/Components/RoomProjector.jsx:11-14 | the first node that is a mesh: none is found only when no node is a mesh, and every node before the one found is not a mesh |
| RoomProjector.RoomMesh | src/Components/RoomProjector.jsx:9-29 | renders nothing with a warning naming the file exactly when no node is a mesh; otherwise draws the first mesh's geometry with the given material and position |

## Left out

- Rounding: vectors, opacities and progress are exact reals. The float rounding of THREE.js, GLSL and gsap is not modelled.
- The GLSL equirectangular lookup (direction to `atan`/`asin` texture coordinates) is transcendental shader code. `FragmentColor` takes it as the `sample` function.
- `src/utility/ProjectedMaterial.ts` and `src/App.jsx` are not part of this model.
- Timing: the gsap durations, the `power2.inOut` curve and the frame clock. Tween progress arrives as an input already eased.
- `VirtualTour.Scene.Complete`: it stands for `onComplete` only. gsap writes the final tween values and fires `onComplete` in one update. So in the source no frame sees progress 1 while the transition data still exists, and the camera rests at the last interpolated point, short of the destination. The model also allows a `Frame` between `Advance(1.0)` and `Complete`. No contract claims that the camera arrives.
- Camera orientation: `camera.lookAt`, `controls.update()` and orbit damping are not modelled. The viewing direction is the `lookDir` parameter.
- `Math.sqrt` inside `normalize()`. The length comes in as the `len` parameter, with `len * len` equal to the squared length.
- Asset loading: `useLoader`, `RGBELoader` and `useGLTF` are asynchronous I/O. Loaded textures and glTF nodes are inputs. The loader cache is a map from path to texture object.
- `VirtualTour.Scene.Request`: in React a click's state updates take effect at the next render. The model commits them before the next frame or event. It therefore does not cover a second click handled by a render that still sees the old state.
- `VirtualTourLegacy`: the setters are committed at once. The same double-click gap is not covered.
- The TypeScript `Model` components draw the meshes of stops 0, 1 and 2 by fixed index. This and the JSX `Hotspot`/`Html`/`Canvas` markup are rendering only.
- Unused stop fields (`hotspotPosition`, `description`, `tags`, `connectedStops`) and `tourConfig` are not modelled. No logic reads them. `connectedStops` names an id that does not exist.
- Hotspot occlusion does not appear in any of these files and is not modelled.
- `VirtualTourLegacy.Scene.InitialTextureLoaded`: the first panorama's load can finish at any time and overwrites material 0 whatever its role by then. The model states what it writes, but makes no claim about which panorama is visible if that happens during a later cross-fade.
- `RoomProjector.Projector.Render`: it requires both texture paths to be in the loader cache. With an uncached path `useLoader` suspends the render instead; suspension is not modelled.
- `VirtualTourLegacy.Scene.TextureLoaded`: the load in `handleTransition` has no error callback. If it never calls back, the scene stays transitioning for good: hotspots stay hidden and all requests are dropped. The model simply never calls `TextureLoaded` in that case and states nothing about it.
