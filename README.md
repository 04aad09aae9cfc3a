# Projet_Moteur core, modelled in Dafny

The repository is a Direct3D 12 tutorial application (`BoxApp`) on its way to a small
asteroid game: a player ship, asteroids drifting towards the camera, projectiles, and a
per-item collision step. This project models the domain logic of that core; the
graphics-API plumbing around it is left out.

- **The entity store `GameObject`** (`game_object.dfy`, module `GameObjects`).
  - `Init` lays the box, sphere, pyramid and projectile meshes into one shared
    "shapeGeo" geometry. Its four fill loops become the method `FillMesh`, proved
    against the reference layout `VerticesUpTo`. The four draw ranges come from the
    source's eight offsets, including its slip on the projectile's start index.
  - The four builders append a new `RenderItem` to `mAllRitems` and `mOpaqueRitems`
    and bump `ObjIndex`.
  - The getters and the setter read and replace the lists.
- **The entity `RenderItem`** (`render_item.dfy`, module `RenderItems`) is a class.
  - Its `CheckCollision` is the imperative loop of the source, proved against the pure
    function `Collision.Scan`.
  - `collision.dfy` (module `Collision`) states the proximity box, the rule table, the
    `std::vector::erase` semantics, and what the walk does to the list copy and to the
    caller's flags.
- **The stand-alone cube of `GenerateObj::Initialize`** (`generate_obj.dfy`): the
  constant 8-vertex, 36-index table and its "boxGeo" geometry, with lemmas about the
  shape it describes.
- **`InputManager::GetKeyPressed`** (`input_manager.dfy`): the scan of 256 key states
  for the first one whose 0x8000 bit is set, or -1.
- **The application class `BoxApp`** (`box_app.dfy`, module `BoxApplication`), covering:
  - the key dispatch of `CameraInputs`;
  - the reset of the move accumulators in `Camera`;
  - `Update`;
  - the command sequence recorded by `DrawRenderItems`;
  - the back-buffer rotation in `Draw`;
  - the CBV heap size and pass-CBV slot of `BuildDescriptorHeaps` and
    `BuildConstantBuffers`;
  - the scene part of `Initialize`.

`geometry.dfy` (module `Geometry`) holds the shared value types:
- `Float3`, `Vertex`, `Color`, 16-bit indices;
- `Submesh` (SubmeshGeometry);
- `MeshGeometry`, seen on its CPU-side content.

Facts about this version of the code that the model keeps:
- The collision test compares the caller's World as it was on entry. The moved World is
  stored only after the loop, unless `dontMove` is set.
- The asteroid builder translates by zero: there is no random offset. Items have no
  lifetime counter and no alive flag.
- The two asteroid/projectile rows are not mirror images. The asteroid-first row erases
  exactly the two colliding items; the projectile-first row erases them only when they
  are adjacent. See Findings.

## Model

| member | source | states |
|---|---|---|
| Geometry.DrawArg | GameObject.cpp:118-120 | `DrawArgs[name]` yields the stored submesh; a missing name yields an all-zero SubmeshGeometry, as `unordered_map::operator[]` default-constructs one |
| Geometry.Translated | GameObject.h:40-45 | multiplying an affine World by `Translate(0, 0, dz)` moves its translation row by dz on z only |
| Collision.Overlaps | GameObject.h:50 | the six inclusive comparisons of the caller's translation row against the other item's, 0.25 either side on each axis; their meaning is stated by OverlapsWithin and OverlapsSymmetric |
| Collision.OverlapsWithin | GameObject.h:50 | the six-comparison proximity test holds iff the two positions are at most 0.25 apart on every axis, bounds included |
| Collision.OverlapsSymmetric | GameObject.h:50 | the proximity test gives the same answer whichever item calls it |
| Collision.RuleFor | GameObject.h:51-71 | a pair that selects a rule always has two different tags, one of them asteroid; any pair with the test box selects none (the whole table is in RuleTable) |
| Collision.RuleTable | GameObject.h:51-71 | asteroid/player ends the game from either side; a pair selects the asteroid-first row exactly when the reversed pair selects the projectile-first row; asteroid/asteroid and any pair with the test box do nothing |
| Collision.Moved | GameObject.h:38-46 | an asteroid's stored position moves -0.01 on z, a projectile's +0.01; x and y never change; every other tag stays put |
| Collision.LoneAsteroidDrifts | GameObject.h:39-42 | with nothing to collide with, n frames move an asteroid by exactly 0.01·n towards the camera along z |
| Collision.EraseAt | GameObject.h:61-62 | one `erase` shortens the copy by exactly one |
| Collision.EraseAtMultiset | GameObject.h:61-62 | erasing a position removes exactly one occurrence of its element and nothing else |
| Collision.WithoutAt | GameObject.h:59-68 | the reference "remove exactly two positions" keeps every other element in order, and drops exactly the two named ones |
| Collision.AsteroidFirstErasesPair | GameObject.h:59-63 | erasing `offset` and then `i - 1` removes exactly positions `offset` and `i` of the original list |
| Collision.ProjectileFirstErases | GameObject.h:64-68 | erasing `i - 1` and then `offset` removes positions `offset` and `i - 1`; that is the pair `offset`, `i` only when they are adjacent |
| Collision.ProjectileFirstRemovesPairIff | GameObject.h:64-68 | on a list of distinct items, the projectile-first row removes the colliding pair iff the asteroid is right after the projectile; otherwise the asteroid survives and its predecessor goes |
| Collision.Step | GameObject.h:50-71 | one loop body never lengthens the copy |
| Collision.StepOnlyRemoves | GameObject.h:50-71 | one loop body leaves only items of its input, none more often than there |
| Collision.StepKeepsPrefix | GameObject.h:50-71 | unless one loop body clears the copy, the items before `offset` stay in place |
| Collision.StepKeepsMembers | GameObject.h:50-71 | every item one loop body leaves was in its input |
| Collision.Scan | GameObject.h:48-73 | the walk from index i never lengthens the copy |
| Collision.ScanOnlyRemoves | GameObject.h:48-73 | the whole walk only takes items out of the copy: the result is a sub-multiset of the input |
| Collision.ScanKeepsPrefix | GameObject.h:48-73 | unless the walk clears the copy, the items before `offset` are still in their places at the end |
| Collision.ScanQuiet | GameObject.h:48-73 | when no pair from i on overlaps with a rule, list and flags come back unchanged; a call with nothing after `offset` changes nothing |
| Collision.ScanSkips | GameObject.h:48-73 | pairs that do not fire are passed over without effect |
| Collision.ScanFirstFiring | GameObject.h:48-73 | the first pair that fires decides: asteroid/player returns an empty copy with `gameOver` toggled once; an erase row shortens the copy by two, toggles `RemoveAsteroid` and continues at the next index |
| Collision.AsteroidHitsProjectile | GameObject.h:59-63 | an asteroid meeting a projectile, with no other pair firing, returns the list minus exactly those two items, two shorter, with `RemoveAsteroid` toggled once |
| Collision.ProjectileHitsAsteroid | GameObject.h:64-68 | a projectile meeting an asteroid, with no other pair firing, returns the list two shorter with `RemoveAsteroid` toggled once, but minus positions `i - 1` and `offset` |
| Collision.PlayerAsteroidEndsGame | GameObject.h:51-58 | whichever of the player and the asteroid calls, the first firing pair being those two returns an empty copy and toggles `gameOver` exactly once, whatever follows |
| Collision.EraseHitPair | GameObject.h:64-68 | corrected removal: exactly positions `offset` and `i` go, the rest keeps its order, and the multiset loses exactly those two items |
| Collision.ErasedAsteroidKeepsErasing | GameObject.h:48-68 | as written, after the calling asteroid is erased the walk goes on: a second projectile and an uninvolved test box are erased, and `RemoveAsteroid` ends unchanged |
| Collision.ScanIntended | GameObject.h:48-73 | corrected walk: never lengthens the copy and keeps only items of the input |
| Collision.ScanIntendedRemovesPair | GameObject.h:59-68 | with the corrected walk, the first asteroid/projectile hit, in either order, removes exactly the two colliding items and toggles `RemoveAsteroid` once |
| RenderItems.RenderItem.constructor | GameObject.h:22-36 | a new item has its tag, World at identity (translation at the origin), `ObjCBIndex` = -1 as a UINT, all three flags false, and an empty draw range |
| RenderItems.RenderItem.CheckCollision | GameObject.h:37-78 | the returned copy and both flags are what `Scan` makes of the list and the entry flags; World is stored moved by the item's step unless `dontMove` |
| RenderItems.Entries | GameObject.h:50-51 | the loop sees each item together with its tag and the translation row of its World, in list order |
| RenderItems.EntriesErase | GameObject.h:61-67 | erasing an item from the list erases its entry from the loop's view |
| GameObjects.SubmeshTable | GameObject.cpp:20-48 | each index count is the mesh's 32-bit index count; each base vertex is the vertex count before the mesh; box, sphere and pyramid start at the index count before them; the projectile adds the pyramid's vertex count instead |
| GameObjects.ProjectileStartIndex | GameObject.cpp:27 | the projectile's start index is off from the true prefix sum by (pyramid vertices - pyramid indices); it is right iff those counts are equal |
| GameObjects.VerticesUpTo | GameObject.cpp:50-71 | the reference combined vertex buffer has exactly the vertex count of the meshes it covers |
| GameObjects.VertexOfMesh | GameObject.cpp:50-71 | vertex i of mesh m lands at (vertices before m) + i, with m's position and m's colour |
| GameObjects.SegmentOf | GameObject.cpp:50-71 | every vertex of the combined buffer falls in one of the four mesh segments |
| GameObjects.SegmentUnique | GameObject.cpp:50-71 | no vertex falls in two segments |
| GameObjects.VertexSegment | GameObject.cpp:50-71 | every vertex of the combined buffer carries its segment's mesh position and colour |
| GameObjects.FillMesh | GameObject.cpp:53-71 | one fill loop writes mesh m's coloured vertices from the running counter k on, and advances k by the mesh's vertex count |
| GameObjects.ShapeGeometry | GameObject.cpp:73-108 | "shapeGeo" holds the combined vertices and the four 16-bit index lists in order; byte sizes are 28 per vertex and 2 per index; the format is R16_UINT; the four named draw ranges are the submesh table's |
| GameObjects.DrawRangesInBuffers | GameObject.cpp:20-108 | box, sphere and pyramid ranges lie inside the index buffer; the projectile's does iff the pyramid has no more vertices than indices; every base vertex plus its mesh's vertex count stays in the vertex buffer |
| GameObjects.GameObject.constructor | GameObject.h:106-113 | a new store has no geometries, no items and `ObjIndex` 0 |
| GameObjects.GameObject.Init | GameObject.cpp:14-110 | `mGeometries["shapeGeo"]` becomes `ShapeGeometry` of the four meshes; other entries are untouched |
| GameObjects.GameObject.NewItem | GameObject.cpp:113-120 | a fresh item with the given tag, the current `ObjIndex` and the named submesh's draw range |
| GameObjects.GameObject.Store | GameObject.cpp:124-126 | the item is pushed on the owning list, `mAllRitems[ObjIndex]` on the opaque list, and `ObjIndex` grows by one |
| GameObjects.GameObject.BuildRenderOpBox | GameObject.cpp:112-128 | one new "testBox" item over the "box" range is appended to both lists, earlier items untouched; `Registered` is kept |
| GameObjects.GameObject.BuildRenderOpPyramide | GameObject.cpp:130-146 | the same for a "player" item over the "pyramide" range |
| GameObjects.GameObject.BuildRenderOpProjectile | GameObject.cpp:148-164 | the same for a "projectile" item over the "projectile" range |
| GameObjects.GameObject.BuildRenderOpCircle | GameObject.cpp:166-183 | the same for an "asteroid" item over the "sphere" range, its World translated by zero |
| GameObjects.GameObject.GetOpaqueItems | GameObject.cpp:185-188 | returns the stored opaque list |
| GameObjects.GameObject.GetAllItems | GameObject.cpp:190-193 | returns the stored owning list |
| GameObjects.GameObject.SetOpaqueItems | GameObject.cpp:195-198 | the opaque list becomes the given list |
| GenerateObj.BoxIndices | GenerateObj.cpp:25-50 | the index table has 36 entries, a whole number of triangles |
| GenerateObj.FacesInTable | GenerateObj.cpp:25-50 | face n's two triangles occupy indices 6n to 6n + 5 of the table |
| GenerateObj.BoxVertices | GenerateObj.cpp:13-23 | the vertex table has eight entries (which corners they are is VerticesAreTheCorners) |
| GenerateObj.FaceIndices | GenerateObj.cpp:25-49 | each commented face lists six indices, two triangles |
| GenerateObj.Initialize | GenerateObj.cpp:13-80 | "boxGeo" holds the two tables; the stride is 28 bytes and the format R16_UINT; the byte sizes are count × element size; the single "box" range covers the whole index buffer from vertex 0 |
| GenerateObj.InitializeSizes | GenerateObj.cpp:52-80 | 8 vertices (224 bytes), 36 indices (72 bytes), 12 triangles; the "box" range lies inside the buffer |
| GenerateObj.IndicesInRange | GenerateObj.cpp:13-50 | every index names one of the eight vertices |
| GenerateObj.TrianglesProper | GenerateObj.cpp:25-50 | none of the twelve triangles repeats a vertex |
| GenerateObj.VerticesAreTheCorners | GenerateObj.cpp:13-23 | the eight positions are pairwise different corners of the unit cube at the origin, and every corner appears |
| GenerateObj.FaceMembership | GenerateObj.cpp:13-50 | a vertex is named by a face's triangles iff it lies in that face's plane |
| GenerateObj.FacesUseTheirCorners | GenerateObj.cpp:13-50 | each face's two triangles use exactly the four corners on that face |
| InputManager.FirstDown | InputManager.cpp:12-20 | the scan's result is -1 or a key code of the table |
| InputManager.IsDown | InputManager.cpp:15 | `state & 0x8000` is non-zero iff the 16-bit state, read unsigned, is at least 0x8000 |
| InputManager.FirstDownIsFirst | InputManager.cpp:12-20 | -1 iff no key is down; otherwise a down key with no down key before it |
| InputManager.OnlyDownBitMatters | InputManager.cpp:15 | only the 0x8000 bit of each state decides the result |
| InputManager.GetKeyPressed | InputManager.cpp:12-20 | the loop with early return gives the first code 0..255 whose state has bit 0x8000 set, or -1 iff there is none |
| BoxApplication.KeyEffects | BoxApp.cpp:73-117 | Z/S move back-forward by ±0.02, D/Q left-right by ±0.02, Down/Up the pitch by ±0.04, Right/Left the yaw by ±0.04; any other code, Shift and -1 included, changes nothing |
| BoxApplication.ApplyKey | BoxApp.cpp:75-117 | the "no key" code -1 changes nothing, and one call never changes both a movement and a rotation accumulator (per-key effects in KeyEffects) |
| BoxApplication.NextBackBuffer | BoxApp.cpp:245 | for a non-negative index, C's truncating `%` agrees with the mathematical remainder |
| BoxApplication.BackBufferInRange | BoxApp.cpp:245 | an index in range stays in range: it steps up by one and wraps to 0 after the last buffer |
| BoxApplication.BackBufferCycle | BoxApp.cpp:245 | after n presents the index is (start + n) mod count: the buffers are used in turn |
| BoxApplication.BackBufferPeriod | BoxApp.cpp:245 | after `SwapChainBufferCount` presents the index is back where it started |
| BoxApplication.DrawCommands | BoxApp.cpp:186-194 | five commands are recorded per opaque item |
| BoxApplication.DrawsInOrder | BoxApp.cpp:186-194 | the recorded commands hold exactly one draw per opaque item, in list order, each with that item's index count, start index and base vertex |
| BoxApplication.ItemDraws | BoxApp.cpp:188-193 | one item's five commands contain exactly one draw, its own |
| BoxApplication.BlocksInOrder | BoxApp.cpp:186-194 | block k of five commands is item k's: its buffers and topology, its own CBV at root parameter 0, its draw |
| BoxApplication.BoxApp.constructor | BoxApp.h:62-107 | the move, pitch and yaw accumulators start at 0, the back buffer at 0, `mPassCbvOffset` at 0, the store empty |
| BoxApplication.BoxApp.CameraInputs | BoxApp.cpp:73-118 | the accumulators change as `ApplyKey` says for the code `GetKeyPressed` returns (see KeyEffects) |
| BoxApplication.BoxApp.Camera | BoxApp.cpp:136-137 | after the camera moves, both move accumulators are zero |
| BoxApplication.BoxApp.Update | BoxApp.cpp:176-180 | pitch and yaw keep the key's effect; both move accumulators end at zero |
| BoxApplication.BoxApp.DrawRenderItems | BoxApp.cpp:182-196 | the recorded log is `DrawCommands` of the opaque list: five commands per item, in order (see DrawsInOrder, BlocksInOrder) |
| BoxApplication.BoxApp.Draw | BoxApp.cpp:230-245 | records the items' commands, then advances the back buffer by `(curr + 1) % SwapChainBufferCount` with C's `%` |
| BoxApplication.BoxApp.BuildDescriptorHeaps | BoxApp.cpp:253-266 | the heap gets one descriptor per opaque item plus one; the pass-CBV offset is the item count, the heap's last slot |
| BoxApplication.BoxApp.BuildConstantBuffers | BoxApp.cpp:268-290 | the pass CBV goes at heap index `mPassCbvOffset`, that many descriptor increments from the start: the last slot when the heap was sized for it |
| BoxApplication.BoxApp.InitializeScene | BoxApp.cpp:45-50 | after start-up the opaque list is the test box then the asteroid, with buffer indices 0 and 1; the heap has three descriptors; the pass CBV takes slot 2 |

## Left out

- Direct3D calls are not modelled. That covers device, command-list, blob and
  upload-buffer creation, GPU copies, descriptor handles, the PSO, root signature and
  shaders. `BuildObjectConstantBuffers` and `mObjectCB` are left out too. Each is a
  call into code outside the core with no effect on the modelled state.
- Floats are modelled as reals, with no float rounding. The proximity test and the
  camera steps are exact real arithmetic.
- Only the translation row (_41, _42, _43) of a World matrix is modelled.
  `Translate`, called at GameObject.h:41,45 and GameObject.cpp:176, is not defined in
  any file of this model's source; `Translate(0, 0, dz)` is taken as a pure
  z-translation of an affine World. The members of `Transform` are not part of this
  model.
- The camera math of `Camera` is not modelled. That covers the rotation matrix, the
  target, the right, up and forward vectors, the position, and the view, projection and
  pass constants. Only the reset of the two move accumulators (BoxApp.cpp:136-137) is
  kept.
- `GetAsyncKeyState` is an operating-system call; its 256 results are an input array.
- The mesh generators `CreateBox`, `CreateSphere`, `CreatePyramide` and
  `CreateCylinder` are not part of this model. `Init` takes their output, with its
  16-bit index copy, as inputs.
- UINT and `size_t` counts, offsets and byte sizes are modelled as unbounded naturals.
  No 32-bit wrap-around is modelled: the mesh sizes here are far below it.
  `ObjCBIndex = -1` is kept as the constant 0xFFFFFFFF.
- The `Geo` pointer and `PrimitiveType` of an item are not fields of the model. Every
  builder points `Geo` at "shapeGeo", and the commands refer to the item itself.
- `SwapChainBufferCount` and `mCbvSrvUavDescriptorSize` come from the base
  application class, which is not part of this model; they are constructor parameters.
- RenderItems.RenderItem.CheckCollision keeps the caller's two flags in locals during
  the loop and stores them once at the end. The loop reads them only to toggle them,
  and nothing else during the loop reads or writes them, so the observable result is
  the same.
- `dontMove` is never set anywhere: the only writer is commented out. The model keeps
  the field and the test but nothing toggles it.
- `BuildRenderOpProjectile` is declared with three float parameters
  (GameObject.h:99), but its definition takes only the device (GameObject.cpp:148). The
  model follows the definition, which uses no player position.
- Project_Jeu/Main.cpp, Player.h and the `WndProc`/timer plumbing of BoxApp.cpp are
  not part of this model.
- `GenerateObj::GetmBoxGeo` returns an empty pointer and is not modelled.
- RenderItems.RenderItem.CheckCollision follows the code as written (see Findings). The
  corrected `ScanIntended` is stated and proved beside it, not substituted into the
  class.

## Findings

| source | as written | input that shows it | evidently intended | confidence | as-written member | corrected member |
|---|---|---|---|---|---|---|
| GameObject.h:64-68 | the projectile-first row erases `begin() + (i - 1)` and then `begin() + offset` | a projectile P at offset 0, then a test box B, then an asteroid A, all at one position: `[P, B, A]`, hit at i = 2 leaves `[A]` | remove the projectile and the asteroid it hit, as the asteroid-first row does, leaving `[B]` | not executed; high | Collision.ProjectileFirstRemovesPairIff | Collision.EraseHitPair |
| GameObject.h:48-68 | after an erase row removes the caller, the loop goes on comparing the caller's World with later items and erasing at `offset` | asteroid A at offset 0 calling on `[A, P1, B1, B2, P2]`, all at one position: the result is `[B2]` and `RemoveAsteroid` is unchanged | stop after removing the colliding pair, leaving `[B1, B2, P2]` with `RemoveAsteroid` toggled once | not executed; medium | Collision.ErasedAsteroidKeepsErasing | Collision.ScanIntended |
