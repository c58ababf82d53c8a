# Shirt customizer: resource bookkeeping on the scene graph

The customizer shows a three.js shirt model whose three zones (sleeves, front torso, back
torso) take colours from a zustand store. Text labels are printed on the front or the back
as textured planes attached to the model. This project models the parts of the program that
own GPU resources and change state step by step, and proves what each part does with them:

- **Zone colour binder** (`ColorUtils`, `ShirtModel`). `applyColorToMesh` clones every
  material of a mesh, recolours the clones, drops their texture map, assigns them to the
  mesh, and only then disposes the old materials. The zone effect applies it to every mesh
  under the `sleeves`, `front_torso` and `back_torso` roots, or paints the whole model in the
  front colour when none of the three is found.
- **Label-plane reconciler** (`ShirtLabels`). The label effect keeps a map from label id to
  plane mesh in step with the store's labels. It removes and disposes stale planes, creates
  missing ones and retextures the rest. Its cleanup removes every tracked plane and empties
  the map. A re-run of the effect is the cleanup followed by the reconcile.
- **Configuration store** (`CustomizerStore`). The colour setters, the camera and zoom
  setters, add, update and remove label, and reset, each as a pure transition.
- **Label editor** (`TextLabelEditor`). The guard and defaults of the Add button, its
  `disabled` condition, and the input it clears.
- **Model load and teardown** (`ThreeCanvas`, `Disposal`). The loading and error flags and
  the normalisation to a longest side of 4. The model is attached to the scene. The cleanup
  detaches it and disposes the geometry and materials of every mesh it holds.
- **Camera transitions and scene teardown** (`ThreeScene`). The ease-out-cubic transition
  towards a preset, the write-back of the `free` preset, and the disposal traversal of the
  whole scene.
- **Zone split** (`ZoneSplit`), from the Blender preparation script `separate_shirt_zones.py`.
  This is the rule by which each of the three zone copies keeps its faces, and the selection
  loop that marks the others for deletion.

The three.js object graph is made explicit in `Resources` and `SceneGraph`:

- Every geometry, material, texture, mesh and model root is an object with an `Id` in a heap.
- A disposable object is `Live` or `Disposed`.
- A mesh holds its geometry and a material slot, either one material or an array of them.
- A model root holds a tree of `Group` and `Mesh` nodes.
- The heap also keeps a log of allocations, `mesh.material` assignments and disposals, in
  program order.

The class `World` holds these as fields that the operations update in place. Every
state-changing method is proved equal to a pure function of the old state (the `...On`
functions), and the lemmas prove the properties about those functions. The library calls
are modelled on this heap:

- `getObjectByName` is the first match in pre-order, the root included.
- `traverse` is a pre-order walk.
- `Material.clone()` is a fresh live material with the same fields.

Three details where the model follows the code to the letter:

- The error text follows the code's `error instanceof Error ? error.message : 'Unknown error'`.
  An `Error` whose message is empty therefore gives the bare prefix, and `'Unknown error'` is
  used only for failures that are not an `Error`.
- The zone script's comments speak of splitting front and back on z, but the code compares
  the polygon centre's y with `center_y`. The model follows the code.
- The script's `zone_type` strings are `'sleeves'`, `'front'` and `'back'`, while the objects
  it creates are named `sleeves`, `front_torso` and `back_torso`. `ZoneSplit.Parts` keeps both
  names.

Ownership of materials is stated among the meshes the model root reaches (`ModelMeshes`):
each material such a mesh holds is live, no two of them share one, none holds one twice, and
every live material is held by one of them (`ColorUtils.Exclusive`). A label plane that the
label effect removes leaves that list, so its disposed material no longer counts. The chain of
proofs follows the order React runs the two effects of `useShirtModel` in:

- On a new model the zone effect runs first. When every mesh of the model lies under a zone
  root, or no zone root is found and the fallback paints the whole model (`ZonesCover`), its
  first pass makes ownership exclusive however the loaded file shared materials
  (`ShirtModel.ZonePassEstablishes`), and the first label run keeps it
  (`ShirtLabels.FreshModelExclusive`). A mesh outside every zone that shares a material with
  a zone mesh is left holding that material after it is cloned away and disposed.
- Every later zone pass, label run, label cleanup and label re-run keeps it
  (`ZonePassKeepsExclusive`, `ReconcileKeepsExclusive`, `CleanupKeepsExclusive`,
  `RerunKeepsExclusive`). Tracked planes stay single-material leaf children of the model
  (`ShirtLabels.Removable`), which is what lets their removal keep ownership exclusive.

Each run of the load effect in `ThreeCanvas` has its own `loadedModel` variable, and the model
keeps one per run (`Canvas.runs`). A load that completes after its run was cleaned up still
attaches the model. The cleanup of a later run does not see it, so nothing ever disposes it
(`ThreeCanvas.LateLoadAttaches`).

## Model

| member | source | states |
|---|---|---|
| SceneGraph.Preorder | src/components/ThreeCanvas/ThreeCanvas.tsx:82 | `traverse` visits the node itself first, then each child's subtree |
| SceneGraph.FirstNamed | src/components/ThreeCanvas/useShirtModel.ts:17-19 | the result is a node of the list with that name, and it is absent exactly when no node has the name |
| SceneGraph.Find | src/components/ThreeCanvas/useShirtModel.ts:17-19 | a node `getObjectByName` returns carries the name asked for; `FindIsFirstInPreorder` says which one |
| SceneGraph.FindIsFirstInPreorder | src/components/ThreeCanvas/useShirtModel.ts:17-19 | the recursive lookup returns the first node with the name in the pre-order walk of the tree, the root included |
| SceneGraph.MeshIdsOf | src/components/ThreeCanvas/ThreeCanvas.tsx:82-83 | the meshes collected from a list of nodes are meshes of those nodes, and every mesh node of the list is collected |
| SceneGraph.SubtreeMeshes | src/components/ThreeCanvas/useShirtModel.ts:29-34 | every mesh reached from a node met during the walk is also reached from the root |
| SceneGraph.AddChild | src/components/ThreeCanvas/useShirtModel.ts:116 | `model.add(plane)` appends the child and keeps the node's name, kind and transform |
| SceneGraph.AddChildMeshes | src/components/ThreeCanvas/useShirtModel.ts:116 | after `add`, the meshes under the node are the old ones followed by the child's |
| SceneGraph.RemoveMeshChild | src/components/ThreeCanvas/useShirtModel.ts:78 | `model.remove(plane)` keeps exactly the children that are not that mesh |
| SceneGraph.RemoveMeshChildMeshes | src/components/ThreeCanvas/useShirtModel.ts:78 | removing a child adds no mesh to the subtree |
| SceneGraph.RemoveDetachable | src/components/ThreeCanvas/useShirtModel.ts:78 | removing a plane that the model reaches only as a leaf child takes exactly that mesh out of the model's meshes |
| SceneGraph.AddLeafDetachable | src/components/ThreeCanvas/useShirtModel.ts:116 | a freshly added leaf plane can later be removed in that way |
| SceneGraph.AddChildDetachable | src/components/ThreeCanvas/useShirtModel.ts:116 | adding a child that does not reach a plane keeps that plane removable in that way |
| Resources.SceneAddOn | src/components/ThreeCanvas/ThreeCanvas.tsx:66 | `scene.add(root)` makes the root the scene's last child, adds no other root and keeps each old one; a root not yet in the scene is appended; no object and no log entry changes |
| Resources.SceneRemoveOn | src/components/ThreeCanvas/ThreeCanvas.tsx:81 | `scene.remove(root)` leaves exactly the other roots in the scene, and does nothing for a root that is not a child |
| Resources.WithoutMissing | src/components/ThreeCanvas/ThreeCanvas.tsx:81 | `scene.remove` of an object that is not a child leaves the children as they were |
| Resources.DisposeAllOn | src/utils/colorUtils.ts:35 | `forEach(m => m.dispose())` marks exactly the listed objects disposed, logs one release per entry in order, and changes nothing else |
| Resources.DisposeAllTwice | src/utils/colorUtils.ts:35 | disposing the same materials again leaves every object as the first disposal did |
| Resources.World.constructor | src/components/ThreeCanvas/useThreeScene.ts:42 | a new world, like a new `THREE.Scene`, has no objects, an empty scene and an empty log |
| Resources.World.Dispose | src/utils/colorUtils.ts:41 | `dispose()` updates the world as `DisposeOn`: that resource disposed and a release logged |
| Resources.World.DisposeAll | src/utils/colorUtils.ts:35 | disposes each listed material in order, as `DisposeAllOn` |
| Resources.World.Clone | src/utils/colorUtils.ts:13 | `clone()` returns the next id, now a live material with the source's fields |
| Resources.World.WriteMaterial | src/utils/colorUtils.ts:16-25 | field writes on a material replace its fields and nothing else |
| Resources.World.AssignSlot | src/utils/colorUtils.ts:33 | `mesh.material = ...` replaces the mesh's slot and logs the assignment |
| Resources.World.NewGeometry | src/components/ThreeCanvas/useShirtModel.ts:93 | the next id becomes a live plane geometry |
| Resources.World.NewTexture | src/components/ThreeCanvas/useShirtModel.ts:94-97 | the next id becomes a live text texture |
| Resources.World.NewMaterial | src/components/ThreeCanvas/useShirtModel.ts:98-103 | the next id becomes a live material with the given fields |
| Resources.World.NewMesh | src/components/ThreeCanvas/useShirtModel.ts:104 | the next id becomes a mesh holding that geometry and that single material |
| Resources.World.SetRoot | src/components/ThreeCanvas/useShirtModel.ts:116 | replaces the tree under a model root |
| Resources.World.SceneAdd | src/components/ThreeCanvas/ThreeCanvas.tsx:66 | `scene.add(root)` updates the world as `SceneAddOn` |
| Resources.World.SceneRemove | src/components/ThreeCanvas/ThreeCanvas.tsx:81 | `scene.remove(root)`, as `SceneRemoveOn` |
| ColorUtils.Recolor | src/utils/colorUtils.ts:15-25 | the clone keeps every field except the colour and the map; its map is null; it has a colour exactly when the original did, and that colour is the given one |
| ColorUtils.RecolorLastWins | src/utils/colorUtils.ts:15-25 | recolouring twice is recolouring once with the second colour, so repeated colour changes do not compound |
| ColorUtils.Clones | src/utils/colorUtils.ts:33 | clone i is a live, recoloured copy of old material i, one per old material |
| ColorUtils.Reslot | src/utils/colorUtils.ts:30-39 | the new slot holds exactly the new materials, and an array slot stays an array and a single one stays single |
| ColorUtils.CloneAllStep | src/utils/colorUtils.ts:33 | cloning the first i+1 materials is cloning the first i, then applying `applyToMaterial` to material i |
| ColorUtils.ApplyColorOn | src/utils/colorUtils.ts:7-43 | one object is allocated per old material and the mesh's slot becomes exactly that block of new ids; the scene is kept, and every object other than the mesh and its old materials is untouched |
| ColorUtils.ApplyColorReplaces | src/utils/colorUtils.ts:30-42 | after the call the mesh keeps its geometry and its slot holds one new id per old material; new material i is old material i recoloured and live; every old material is disposed |
| ColorUtils.ApplyColorReslots | src/utils/colorUtils.ts:30-39 | the mesh's slot is the block of freshly allocated ids, one per old material, in the order of the old ones |
| ColorUtils.ApplyColorClones | src/utils/colorUtils.ts:10-33 | each freshly allocated object is the live recoloured clone of the corresponding old material |
| ColorUtils.ApplyColorDisposesOld | src/utils/colorUtils.ts:32-41 | every material the mesh held before the call ends disposed |
| ColorUtils.ApplyColorDisposesAfterAssigning | src/utils/colorUtils.ts:32-41 | the log is the clones' allocations, then the one `mesh.material` assignment, then one release per old material in order: disposal comes after the swap |
| ColorUtils.ApplyColorWf | src/utils/colorUtils.ts:7-43 | the call keeps the heap well formed: every reference from a mesh or material is to an object of the right kind |
| ColorUtils.ApplyColorExtends | src/utils/colorUtils.ts:13 | no object changes kind, and every new object is a material |
| ColorUtils.ApplyColorMeshes | src/utils/colorUtils.ts:30-42 | the same objects are meshes afterwards; the mesh holds only fresh ids; every other mesh keeps its slot, and none shared a material with the mesh |
| ColorUtils.ApplyColorKeepsRoots | src/utils/colorUtils.ts:7-43 | every model root, and so every scene graph, is unchanged by the call |
| ColorUtils.ApplyColorKeepsShape | src/utils/colorUtils.ts:30-39 | every mesh stays a mesh and keeps a single material or an array as it had |
| ColorUtils.ApplyColorLeaksNothing | src/utils/colorUtils.ts:30-42 | the live materials afterwards are exactly the mesh's new ones and the live ones the mesh did not hold |
| ColorUtils.ApplyColorHoldsLive | src/utils/colorUtils.ts:30-42 | when ownership among a list of reached meshes containing the mesh is exclusive, every material one of them holds afterwards is live |
| ColorUtils.ApplyColorNoSharing | src/utils/colorUtils.ts:11-13 | afterwards no mesh of that list holds a material twice and no two of them share one, which is what the clone per mesh is for |
| ColorUtils.ApplyColorOrphansNothing | src/utils/colorUtils.ts:34-41 | every live material is held by some mesh of that list afterwards, so the call leaves no live material behind |
| ColorUtils.ApplyColorKeepsExclusive | src/utils/colorUtils.ts:30-42 | exclusive ownership among the reached meshes (each held material live, none shared or held twice, every live material held) holds after the call |
| ColorUtils.ExclusiveSameMeshes | src/utils/colorUtils.ts:30-42 | exclusive ownership depends only on which meshes are in the list, not their order |
| ColorUtils.ExclusiveFrame | src/components/ThreeCanvas/useShirtModel.ts:119-128 | a step that keeps every reached mesh's slot and which materials are live keeps ownership exclusive |
| ColorUtils.ExclusiveAddMesh | src/components/ThreeCanvas/useShirtModel.ts:93-117 | a new mesh holding one new live material, added to the reached meshes, keeps ownership exclusive |
| ColorUtils.ExclusiveDropMesh | src/components/ThreeCanvas/useShirtModel.ts:78-82 | a mesh with a single material that leaves the reached meshes, its material disposed, keeps ownership exclusive among the rest |
| ColorUtils.UnsharedStart | src/utils/colorUtils.ts:7-43 | before any mesh is recoloured, no mesh has been unshared yet |
| ColorUtils.ApplyColorRecolours | src/utils/colorUtils.ts:7-43 | one call keeps the meshes, gives the mesh distinct ids newer than every old object, keeps the other slots, and leaves live exactly the new ids and the live materials the mesh did not hold |
| ColorUtils.ApplyColorUnshares | src/utils/colorUtils.ts:7-43 | one more call on a mesh of the loaded heap adds it to the unshared meshes: each of them holds distinct live materials allocated since the load, no two of them share one, every other mesh keeps its loaded slot, and every live material allocated since the load is held by one of them |
| ColorUtils.UnsharedExclusive | src/utils/colorUtils.ts:30-42 | once every mesh that held a live material at load has been recoloured, ownership among those meshes is exclusive |
| ColorUtils.ApplyToMaterial | src/utils/colorUtils.ts:10-28 | the loop body: returns the next id and updates the world as `ApplyToMaterialOn` (clone, then recolour it) |
| ColorUtils.CloneAll | src/utils/colorUtils.ts:33 | returns the block of fresh ids and updates the world as cloning every old material in order |
| ColorUtils.ApplyColorToMesh | src/utils/colorUtils.ts:7-43 | updates the world as `ApplyColorOn`, whose properties are the lemmas above |
| ShirtModel.ColorMeshesOn | src/components/ThreeCanvas/useShirtModel.ts:29-34 | the walk over a zone's meshes keeps the heap well formed, changes no object's kind, the scene or any model root, and keeps each mesh's slot shape |
| ShirtModel.ApplyColorPaints | src/utils/colorUtils.ts:10-39 | afterwards every material the mesh holds is map-free and, when it has a colour, has the given one |
| ShirtModel.PaintedByClones | src/utils/colorUtils.ts:30-39 | a mesh whose slot is a block of map-free materials in the colour is painted in that colour |
| ShirtModel.ApplyColorKeepsLook | src/utils/colorUtils.ts:7-43 | recolouring one mesh leaves every other mesh's materials as they were |
| ShirtModel.ColorMeshesPaints | src/components/ThreeCanvas/useShirtModel.ts:29-34 | every mesh of the walk ends painted in the zone's colour |
| ShirtModel.StaysPainted | src/utils/colorUtils.ts:7-43 | a mesh already painted in a colour stays painted in it when that colour is applied to any mesh |
| ShirtModel.ColorMeshesKeepsLook | src/components/ThreeCanvas/useShirtModel.ts:29-34 | a mesh outside the walk keeps its look |
| ShirtModel.ColorMeshesLater | src/components/ThreeCanvas/useShirtModel.ts:27-55 | a mesh painted by an earlier zone keeps that colour through a later zone that does not contain it |
| ShirtModel.ZoneStepOn | src/components/ThreeCanvas/useShirtModel.ts:27-55 | one zone walk keeps the heap well formed and every model root as it was, so the next walk finds the same zone root, and keeps each mesh a mesh with its slot shape |
| ShirtModel.ZonePassOn | src/components/ThreeCanvas/useShirtModel.ts:11-67 | the zone effect keeps the heap well formed, changes no object's kind, the scene or any model root, and keeps each mesh's slot shape |
| ShirtModel.ZonesSteps | src/components/ThreeCanvas/useShirtModel.ts:27-55 | the zone pass is the sleeves walk, then the front walk, then the back walk, each on the previous heap |
| ShirtModel.ZonePassBack | src/components/ThreeCanvas/useShirtModel.ts:47-55 | every mesh under `back_torso` ends in the back colour |
| ShirtModel.ZonePassFront | src/components/ThreeCanvas/useShirtModel.ts:37-45 | every mesh under `front_torso` and not under `back_torso` ends in the front colour |
| ShirtModel.ZonePassSleeves | src/components/ThreeCanvas/useShirtModel.ts:27-35 | every mesh under `sleeves` only ends in the sleeve colour |
| ShirtModel.ZonePassKeepsOthers | src/components/ThreeCanvas/useShirtModel.ts:27-58 | when some zone is found, a mesh in none of them keeps its look: a missing zone is skipped |
| ShirtModel.ZonePassFallback | src/components/ThreeCanvas/useShirtModel.ts:57-66 | when no zone is found, every mesh of the model ends in the front colour and the others are untouched |
| ShirtModel.ColorMeshesKeepsExclusive | src/components/ThreeCanvas/useShirtModel.ts:29-34 | exclusive ownership among the model's meshes holds after the walk when it held before |
| ShirtModel.ZonePassKeepsExclusive | src/components/ThreeCanvas/useShirtModel.ts:11-67 | exclusive ownership among the model's meshes survives every later zone pass, so repeated colour changes never accumulate live materials |
| ShirtModel.ColorMeshesUnshares | src/components/ThreeCanvas/useShirtModel.ts:29-34 | the walk extends the set of unshared meshes by the walked ones |
| ShirtModel.ZonePassUnshared | src/components/ThreeCanvas/useShirtModel.ts:11-67 | when every mesh of the model lies under a zone root, or no zone is found, the zone pass leaves a list of meshes that is exactly the model's meshes each holding only fresh live materials that no other listed mesh holds, while every other mesh keeps its slot |
| ShirtModel.ZonePassEstablishes | src/components/ThreeCanvas/useShirtModel.ts:11-67 | on a freshly loaded model whose meshes all lie in a zone (or that has no zones) and hold every live material, one zone pass makes ownership among the model's meshes exclusive, however the file shared materials |
| ShirtModel.ColorMeshes | src/components/ThreeCanvas/useShirtModel.ts:29-34 | the traversal loop updates the world as `ColorMeshesOn` |
| ShirtModel.ZonePass | src/components/ThreeCanvas/useShirtModel.ts:11-67 | with no model the world is unchanged; otherwise it is updated as `ZonePassOn` |
| ShirtLabels.Ids | src/components/ThreeCanvas/useShirtModel.ts:76 | the tracked ids are the map's keys in insertion order |
| ShirtLabels.Lookup | src/components/ThreeCanvas/useShirtModel.ts:89 | `currentPlanes.get(id)` is absent exactly when the id is not a key, and otherwise gives that key's plane |
| ShirtLabels.PlaneTransform | src/components/ThreeCanvas/useShirtModel.ts:107-113 | a front plane sits at z = 0.3 with rotation 0, a back plane at z = -0.3 with rotation pi, both at x = y = 0 and unit scale |
| ShirtLabels.RemovePlaneOn | src/components/ThreeCanvas/useShirtModel.ts:78-82 | removing a plane allocates nothing, keeps the scene, and detaches the plane from the model; every mesh and texture object stays as it was |
| ShirtLabels.NewPlaneOn | src/components/ThreeCanvas/useShirtModel.ts:93-104 | the four allocations append, in order, a live plane geometry, a live texture of the label's text, a live basic material mapping that texture, and a mesh of that geometry holding that material; older objects and the scene stay as they were |
| ShirtLabels.CreatePlaneOn | src/components/ThreeCanvas/useShirtModel.ts:93-117 | creation allocates four objects, the last a mesh holding the third as its single material, and the model then reaches exactly its old meshes followed by the new one; the scene and every older mesh and resource stay as they were |
| ShirtLabels.RetextureOn | src/components/ThreeCanvas/useShirtModel.ts:120-128 | an update allocates one live texture for the label and keeps the scene and every mesh, root and geometry |
| ShirtLabels.Kept | src/components/ThreeCanvas/useShirtModel.ts:76-85 | the entries left after the removal pass are exactly those whose id is still a label's |
| ShirtLabels.PruneOn | src/components/ThreeCanvas/useShirtModel.ts:76-85 | the removal pass keeps the heap well formed, changes no object's kind and leaves the scene alone |
| ShirtLabels.PlaceOneOn | src/components/ThreeCanvas/useShirtModel.ts:89-129 | handling one label keeps the heap well formed, the scene alone and every tracked plane a mesh |
| ShirtLabels.PlaceOn | src/components/ThreeCanvas/useShirtModel.ts:88-130 | the add-or-update pass keeps the heap well formed, the scene alone and every tracked plane a mesh |
| ShirtLabels.ReconcileOn | src/components/ThreeCanvas/useShirtModel.ts:70-130 | a run of the effect keeps the heap well formed, the scene alone and every tracked plane a mesh |
| ShirtLabels.CleanupOn | src/components/ThreeCanvas/useShirtModel.ts:133-142 | the cleanup keeps the heap well formed and the scene alone, and empties the map |
| ShirtLabels.NoModelNoChange | src/components/ThreeCanvas/useShirtModel.ts:71 | with no model the effect changes neither the heap nor the map |
| ShirtLabels.KeptIds | src/components/ThreeCanvas/useShirtModel.ts:76-85 | an id stays tracked after removal exactly when it was tracked and is a current label's |
| ShirtLabels.PlaceOnePlanes | src/components/ThreeCanvas/useShirtModel.ts:89-117 | a tracked label changes no entry; an untracked one adds exactly one entry, its new plane, at the end |
| ShirtLabels.PlaceIds | src/components/ThreeCanvas/useShirtModel.ts:88-130 | after the add-or-update pass an id is tracked exactly when it was tracked before or is a label's |
| ShirtLabels.ReconcileTracksLabels | src/components/ThreeCanvas/useShirtModel.ts:76-130 | after a reconcile the tracked ids are exactly the label ids |
| ShirtLabels.NoDupAppend | src/components/ThreeCanvas/useShirtModel.ts:117 | `set` under a new key keeps the keys distinct |
| ShirtLabels.KeptNoDup | src/components/ThreeCanvas/useShirtModel.ts:76-85 | removal keeps the keys distinct |
| ShirtLabels.PlaceNoDup | src/components/ThreeCanvas/useShirtModel.ts:88-130 | add-or-update keeps the keys distinct, even when two labels share an id |
| ShirtLabels.ReconcileNoDup | src/components/ThreeCanvas/useShirtModel.ts:71-130 | a reconcile, with or without a model, keeps the keys distinct |
| ShirtLabels.PlaceGrows | src/components/ThreeCanvas/useShirtModel.ts:88-130 | add-or-update only appends entries, each for a plane created during the pass |
| ShirtLabels.PlaceAllNew | src/components/ThreeCanvas/useShirtModel.ts:88-117 | with distinct untracked labels, the pass tracks exactly the label ids after the old keys, in label order |
| ShirtLabels.RemovePlaneEffects | src/components/ThreeCanvas/useShirtModel.ts:78-82 | removal detaches exactly that plane from the model, disposes its geometry and single material, and changes nothing else, the texture included |
| ShirtLabels.CreatePlaneEffects | src/components/ThreeCanvas/useShirtModel.ts:92-117 | a new plane is four fresh objects (geometry 1 by 0.25, label texture, transparent double-sided basic material with alpha test 0.5 using it, and the mesh) appended as the model's last child; nothing older changes |
| ShirtLabels.RetextureEffects | src/components/ThreeCanvas/useShirtModel.ts:119-128 | a new texture is always made; for a plane with a single basic material its map becomes the new texture and the old map is disposed; otherwise no older object changes; no plane is created |
| ShirtLabels.PruneKeeps | src/components/ThreeCanvas/useShirtModel.ts:76-85 | the removal pass leaves every mesh and texture object unchanged |
| ShirtLabels.PruneRemovesStale | src/components/ThreeCanvas/useShirtModel.ts:76-85 | every plane whose id is no label's is detached from the model, with its geometry and single material disposed |
| ShirtLabels.PruneKeepsChild | src/components/ThreeCanvas/useShirtModel.ts:76-85 | a child of the model that is no stale plane stays a child |
| ShirtLabels.PruneKeepsCurrent | src/components/ThreeCanvas/useShirtModel.ts:76-85 | the plane of a current label stays attached through the removal pass |
| ShirtLabels.CreateKeepsModel | src/components/ThreeCanvas/useShirtModel.ts:116-117 | after creating a plane every tracked plane, the new one included, is a distinct child of the model |
| ShirtLabels.RetextureKeepsModel | src/components/ThreeCanvas/useShirtModel.ts:119-128 | retexturing keeps every tracked plane attached |
| ShirtLabels.PlaceOneModel | src/components/ThreeCanvas/useShirtModel.ts:89-129 | after one label every tracked plane is a distinct child of the model |
| ShirtLabels.PlaceKeepsModel | src/components/ThreeCanvas/useShirtModel.ts:88-130 | after the add-or-update pass every tracked plane is a distinct child of the model |
| ShirtLabels.KeptDistinct | src/components/ThreeCanvas/useShirtModel.ts:76-85 | removal keeps tracked planes distinct |
| ShirtLabels.ReconcileKeepsModel | src/components/ThreeCanvas/useShirtModel.ts:76-130 | after a reconcile every tracked plane is a distinct child of the model |
| ShirtLabels.CleanupRemovesAll | src/components/ThreeCanvas/useShirtModel.ts:133-142 | the cleanup detaches every tracked plane and disposes its geometry and single material |
| ShirtLabels.CleanupLeavesTextures | src/components/ThreeCanvas/useShirtModel.ts:133-142 | the cleanup disposes no texture: the planes' textures stay live |
| ShirtLabels.RerunRebuilds | src/components/ThreeCanvas/useShirtModel.ts:70-143 | a re-run (cleanup, then reconcile) with distinct labels tracks exactly the label ids, in order, each on a freshly created plane |
| ShirtLabels.RerunOn | src/components/ThreeCanvas/useShirtModel.ts:70-143 | a re-run keeps the heap well formed, the scene alone and every tracked plane a mesh |
| ShirtLabels.ZonePassKeepsRemovable | src/components/ThreeCanvas/useShirtModel.ts:11-67 | the zone effect leaves every tracked plane a single-material leaf child of the model |
| ShirtLabels.RemovePlaneKeepsExclusive | src/components/ThreeCanvas/useShirtModel.ts:78-82 | removing such a plane takes exactly it out of the model's meshes and keeps ownership among the rest exclusive |
| ShirtLabels.CreatePlaneKeepsExclusive | src/components/ThreeCanvas/useShirtModel.ts:93-117 | a new plane joins the model's meshes with its own live material, and ownership stays exclusive |
| ShirtLabels.RetextureKeepsExclusive | src/components/ThreeCanvas/useShirtModel.ts:120-128 | retexturing changes no mesh of the model and no material's liveness, so ownership stays exclusive |
| ShirtLabels.PruneShrinks | src/components/ThreeCanvas/useShirtModel.ts:76-85 | the removal pass only drops children of the model |
| ShirtLabels.PruneKeepsRemovable | src/components/ThreeCanvas/useShirtModel.ts:76-85 | planes that were removable stay removable through the removal pass |
| ShirtLabels.PruneKeepsExclusive | src/components/ThreeCanvas/useShirtModel.ts:76-85 | the removal pass keeps ownership among the model's meshes exclusive |
| ShirtLabels.CreateKeepsRemovable | src/components/ThreeCanvas/useShirtModel.ts:93-117 | after creating a plane every tracked plane, the new one included, is removable |
| ShirtLabels.PlaceOneKeepsExclusive | src/components/ThreeCanvas/useShirtModel.ts:89-129 | handling one label keeps ownership exclusive and the tracked planes removable |
| ShirtLabels.PlaceKeepsExclusive | src/components/ThreeCanvas/useShirtModel.ts:88-130 | the add-or-update pass keeps ownership exclusive and the tracked planes removable |
| ShirtLabels.ReconcileKeepsExclusive | src/components/ThreeCanvas/useShirtModel.ts:70-130 | a run of the label effect keeps ownership among the model's meshes exclusive and every tracked plane removable |
| ShirtLabels.CleanupKeepsExclusive | src/components/ThreeCanvas/useShirtModel.ts:133-142 | the cleanup keeps ownership among the meshes the model still reaches exclusive |
| ShirtLabels.RerunKeepsExclusive | src/components/ThreeCanvas/useShirtModel.ts:70-143 | a re-run on the same model keeps ownership exclusive and every tracked plane removable |
| ShirtLabels.FreshModelExclusive | src/components/ThreeCanvas/useShirtModel.ts:11-143 | on a freshly loaded model, the zone pass followed by the first label run leaves ownership among the model's meshes exclusive with every plane removable |
| ShirtLabels.RemovePlane | src/components/ThreeCanvas/useShirtModel.ts:78-82 | updates the world as `RemovePlaneOn` |
| ShirtLabels.NewPlane | src/components/ThreeCanvas/useShirtModel.ts:93-104 | returns the id of the fourth new object and updates the world as `NewPlaneOn` |
| ShirtLabels.CreatePlane | src/components/ThreeCanvas/useShirtModel.ts:92-117 | returns the new mesh's id and updates the world as `CreatePlaneOn` |
| ShirtLabels.Retexture | src/components/ThreeCanvas/useShirtModel.ts:120-128 | updates the world as `RetextureOn` |
| ShirtLabels.Drop | src/components/ThreeCanvas/useShirtModel.ts:83 | `delete(id)` keeps exactly the entries with other keys |
| ShirtLabels.DropAbsent | src/components/ThreeCanvas/useShirtModel.ts:83 | deleting an absent key changes nothing |
| ShirtLabels.DropAppend | src/components/ThreeCanvas/useShirtModel.ts:83 | deletion works entry by entry, keeping the order of the rest |
| ShirtLabels.DropOnly | src/components/ThreeCanvas/useShirtModel.ts:83 | deleting a key held once removes exactly that entry |
| ShirtLabels.DropNoDup | src/components/ThreeCanvas/useShirtModel.ts:83 | `delete` keeps the keys distinct |
| ShirtLabels.LabelPlanes.constructor | src/components/ThreeCanvas/useShirtModel.ts:9 | the map starts empty |
| ShirtLabels.LabelPlanes.Set | src/components/ThreeCanvas/useShirtModel.ts:117 | `set` under a new key appends the entry and keeps the keys distinct |
| ShirtLabels.LabelPlanes.Delete | src/components/ThreeCanvas/useShirtModel.ts:83 | `delete` leaves the entries as `Drop` and keeps the keys distinct |
| ShirtLabels.LabelPlanes.Clear | src/components/ThreeCanvas/useShirtModel.ts:141 | `clear` empties the map |
| ShirtLabels.RemoveStale | src/components/ThreeCanvas/useShirtModel.ts:76-85 | the removal loop updates the world as `PruneOn` and leaves the map as `Kept` |
| ShirtLabels.AddOrUpdate | src/components/ThreeCanvas/useShirtModel.ts:88-130 | the add-or-update loop updates world and map as `PlaceOn` |
| ShirtLabels.PlaceOne | src/components/ThreeCanvas/useShirtModel.ts:89-129 | one label: world and map as `PlaceOneOn`, the model root still a root |
| ShirtLabels.PlaceOneKeepsRoot | src/components/ThreeCanvas/useShirtModel.ts:89-129 | handling a label keeps the model root a root |
| ShirtLabels.Reconcile | src/components/ThreeCanvas/useShirtModel.ts:71-130 | the effect body updates world and map as `ReconcileOn` |
| ShirtLabels.Cleanup | src/components/ThreeCanvas/useShirtModel.ts:133-142 | the cleanup updates world and map as `CleanupOn`, leaving the map empty |
| ShirtLabels.Run | src/components/ThreeCanvas/useShirtModel.ts:70-130 | one run of the effect, with or without a model, as `ReconcileOn` |
| ShirtLabels.Rerun | src/components/ThreeCanvas/useShirtModel.ts:70-143 | the previous run's cleanup, then the effect, as `RerunOn` |
| Disposal.DisposeMeshOn | src/components/ThreeCanvas/ThreeCanvas.tsx:83-89 | for one mesh the geometry and every material end disposed and no other object changes |
| Disposal.DisposeOneStep | src/components/ThreeCanvas/ThreeCanvas.tsx:84-88 | `dispose()` on a geometry or a material disposes it and changes no other object |
| Disposal.DisposeAllStep | src/components/ThreeCanvas/ThreeCanvas.tsx:86 | `forEach(mat => mat.dispose())` disposes every material of the array and changes no other object |
| Disposal.DisposeMeshesOn | src/components/ThreeCanvas/ThreeCanvas.tsx:82-91 | the traversal only disposes: objects keep their kind and the scene is unchanged |
| Disposal.DisposesParts | src/components/ThreeCanvas/ThreeCanvas.tsx:82-91 | every geometry and material of every mesh reached ends disposed |
| Disposal.DisposesOnlyParts | src/components/ThreeCanvas/ThreeCanvas.tsx:82-91 | every object that is not a geometry or material of a mesh reached, including the parts of meshes the traversal does not reach, stays exactly as it was |
| Disposal.DisposesNothingElse | src/components/ThreeCanvas/ThreeCanvas.tsx:82-91 | meshes, model roots, textures and the scene are untouched |
| Disposal.DisposeMeshes | src/components/ThreeCanvas/ThreeCanvas.tsx:82-91 | the traversal loop updates the world as `DisposeMeshesOn` |
| Disposal.DisposeMesh | src/components/ThreeCanvas/ThreeCanvas.tsx:83-89 | the callback for one mesh updates the world as `DisposeMeshOn` |
| ThreeCanvas.Max3 | src/components/ThreeCanvas/ThreeCanvas.tsx:60 | `Math.max` of three values is one of them and at least each |
| ThreeCanvas.ScaleFor | src/components/ThreeCanvas/ThreeCanvas.tsx:61 | the scale exists exactly when the longest side is non-zero, and scale times longest side is 4 |
| ThreeCanvas.Normalise | src/components/ThreeCanvas/ThreeCanvas.tsx:63-64 | recentring and rescaling leave the rotation as it was |
| ThreeCanvas.NormaliseMovesPoints | src/components/ThreeCanvas/ThreeCanvas.tsx:63-64 | after `position.sub(center*scale)` and `scale.multiplyScalar(scale)`, a model point lands at its old place recentred on the box centre and scaled, plus the old position's scaled-away part |
| ThreeCanvas.NormaliseAtOrigin | src/components/ThreeCanvas/ThreeCanvas.tsx:63-64 | for a model loaded at the origin, each point moves to (p - center) * scale |
| ThreeCanvas.NormalisedBox | src/components/ThreeCanvas/ThreeCanvas.tsx:57-64 | for a non-degenerate box the normalised box is centred at the origin and its longest side is exactly 4 |
| ThreeCanvas.MaxDimScaled | src/components/ThreeCanvas/ThreeCanvas.tsx:59-64 | scaling a box by a positive factor scales its longest side by that factor |
| ThreeCanvas.Max3Scale | src/components/ThreeCanvas/ThreeCanvas.tsx:60 | the largest of three values scaled by a positive factor is the scaled largest |
| ThreeCanvas.NormalisedRoot | src/components/ThreeCanvas/ThreeCanvas.tsx:57-64 | normalisation changes only the root's transform: its name, kind, children and meshes stay |
| ThreeCanvas.LoadSuccessOn | src/components/ThreeCanvas/ThreeCanvas.tsx:53-68 | on success the root's transform is normalised by `4 / maxDim` about the box centre, the root becomes the scene's last child (appended when it was not a child), and nothing else changes |
| ThreeCanvas.TeardownOn | src/components/ThreeCanvas/ThreeCanvas.tsx:79-92 | with no loaded model the cleanup changes nothing; otherwise exactly the loaded root leaves the scene |
| ThreeCanvas.TeardownKeepsOthers | src/components/ThreeCanvas/ThreeCanvas.tsx:79-92 | the cleanup leaves every object that is not a geometry or material of a mesh of the loaded model exactly as it was |
| ThreeCanvas.WithoutAppended | src/components/ThreeCanvas/ThreeCanvas.tsx:66-81 | removing a root appended after the others gives the old scene back |
| ThreeCanvas.LoadThenTeardown | src/components/ThreeCanvas/ThreeCanvas.tsx:53-92 | a load followed by the cleanup restores the scene and leaves every geometry and material of every mesh of the model disposed |
| ThreeCanvas.LateLoadAttaches | src/components/ThreeCanvas/ThreeCanvas.tsx:48-92 | a load that completes after its own run's cleanup, which found nothing loaded, still attaches the model; a later run whose load failed tears down nothing, so the late model stays in the scene with every resource as it was |
| ThreeCanvas.ErrorMessage | src/components/ThreeCanvas/ThreeCanvas.tsx:73-74 | the error text is `Failed to load model: ` followed by the `Error`'s message, or by `Unknown error` for anything else |
| ThreeCanvas.ErrorMessageInjective | src/components/ThreeCanvas/ThreeCanvas.tsx:73-74 | distinct `Error` messages give distinct texts |
| ThreeCanvas.Canvas.constructor | src/components/ThreeCanvas/ThreeCanvas.tsx:26-28 | the component starts loading, with no error, no model and no effect run |
| ThreeCanvas.Canvas.StartLoad | src/components/ThreeCanvas/ThreeCanvas.tsx:41-48 | with a scene the effect sets loading, clears the error and starts a new run whose `loadedModel` is null, returning its index; without one it changes nothing |
| ThreeCanvas.Canvas.OnLoadSuccess | src/components/ThreeCanvas/ThreeCanvas.tsx:53-69 | the world changes as `LoadSuccessOn`; the root becomes the loaded model of the run that started the load and of no other, and the component's model; loading ends and the error stays |
| ThreeCanvas.Canvas.OnLoadError | src/components/ThreeCanvas/ThreeCanvas.tsx:71-76 | the error becomes `ErrorMessage(e)`, loading ends, and neither the model, any run's loaded model nor the scene changes |
| ThreeCanvas.Canvas.Teardown | src/components/ThreeCanvas/ThreeCanvas.tsx:79-93 | the cleanup of a run updates the world as `TeardownOn` for that run's loaded model only |
| ThreeScene.EaseEnds | src/components/ThreeCanvas/useThreeScene.ts:8-10 | ease-out-cubic is 0 at 0 and 1 at 1 |
| ThreeScene.CubeMonotone | src/components/ThreeCanvas/useThreeScene.ts:9 | the cube is monotone and non-negative on non-negative values |
| ThreeScene.EaseMonotone | src/components/ThreeCanvas/useThreeScene.ts:8-10 | ease-out-cubic is monotone on [0, 1] |
| ThreeScene.EaseRange | src/components/ThreeCanvas/useThreeScene.ts:8-10 | ease-out-cubic maps [0, 1] into [0, 1] |
| ThreeScene.Progress | src/components/ThreeCanvas/useThreeScene.ts:130-136 | `min(elapsed / 500, 1)` never exceeds 1, is 1 exactly once 500 ms have passed, and is non-negative for non-negative elapsed time |
| ThreeScene.ProgressMonotone | src/components/ThreeCanvas/useThreeScene.ts:135-136 | progress never goes back as time goes on |
| ThreeScene.LerpEnds | src/components/ThreeCanvas/useThreeScene.ts:139 | `lerpVectors` gives the start at 0 and the target at 1 |
| ThreeScene.PresetPosition | src/constants/presets.ts:14-19 | every preset but `free` has a position, at height 0 and distance 3 from the centre on an axis |
| ThreeScene.TargetFor | src/components/ThreeCanvas/useThreeScene.ts:123-127 | a target exists exactly for the non-free presets |
| ThreeScene.TargetDistance | src/components/ThreeCanvas/useThreeScene.ts:127 | the target is the preset position scaled by the zoom: at height 0 and distance 3 times the zoom |
| ThreeScene.ArrivesAtTarget | src/components/ThreeCanvas/useThreeScene.ts:134-139 | once the duration has passed, the camera is exactly at the target |
| ThreeScene.StartsAtStart | src/components/ThreeCanvas/useThreeScene.ts:128-139 | at the start time the camera is at its start position |
| ThreeScene.ApproachMonotone | src/components/ThreeCanvas/useThreeScene.ts:134-139 | the eased fraction stays in [0, 1] and never goes back over a transition |
| ThreeScene.Writebacks | src/components/ThreeCanvas/useThreeScene.ts:142-147 | over any run of frames the preset is written back as `free` at most once, and once exactly when some frame finds the transition finished |
| ThreeScene.WritesBackOnce | src/components/ThreeCanvas/useThreeScene.ts:142-147 | a run of frames that reaches the end of the duration writes `free` back exactly once |
| ThreeScene.MeshesUnder | src/components/ThreeCanvas/useThreeScene.ts:93-106 | the traversal reaches every mesh of every root, and only meshes of those roots |
| ThreeScene.SceneMeshes | src/components/ThreeCanvas/useThreeScene.ts:93-106 | the scene traversal reaches only meshes |
| ThreeScene.SceneTeardownOn | src/components/ThreeCanvas/useThreeScene.ts:93-106 | the scene teardown only disposes |
| ThreeScene.SceneTeardownKeepsOthers | src/components/ThreeCanvas/useThreeScene.ts:93-106 | the scene teardown leaves every object that is not a geometry or material of a mesh under a root in the scene exactly as it was, so a detached mesh keeps its parts |
| ThreeScene.SceneTeardownDisposes | src/components/ThreeCanvas/useThreeScene.ts:93-106 | every geometry and material of every mesh under a root in the scene ends disposed |
| ThreeScene.CameraRig.constructor | src/components/ThreeCanvas/useThreeScene.ts:38 | the camera starts at (5, 5, 5) with the controls on, no transition and no frame requested |
| ThreeScene.CameraRig.RenderFrame | src/components/ThreeCanvas/useThreeScene.ts:64-69 | the render loop requests a frame and changes nothing else |
| ThreeScene.CameraRig.Frame | src/components/ThreeCanvas/useThreeScene.ts:134-148 | one animation step puts the camera at the eased position; when finished it re-enables the controls, writes `free` back and stops; otherwise it leaves the controls and the store as they were |
| ThreeScene.CameraRig.Frames | src/components/ThreeCanvas/useThreeScene.ts:130-148 | the chain of frames of one transition writes `free` back `Writebacks` times, leaves the transition pending exactly when it wrote nothing, and re-enables the controls exactly when it wrote; the camera ends on the target when it wrote, at the last frame's position otherwise, and where it was when no frame ran; every other transition is unchanged |
| ThreeScene.CameraRig.OnStoreChange | src/components/ThreeCanvas/useThreeScene.ts:120-151 | `free` changes nothing; any other preset starts a transition from the current camera to the zoomed target, disables the controls and runs the first step at once |
| ThreeScene.CameraRig.Teardown | src/components/ThreeCanvas/useThreeScene.ts:86-106 | the frame is cancelled exactly when one was requested, and the world changes as `SceneTeardownOn` |
| CustomizerStore.SetSleeveColor | src/store/customizerStore.ts:15 | sets the sleeve colour and changes no other field |
| CustomizerStore.SetFrontColor | src/store/customizerStore.ts:16 | sets the front colour and changes no other field |
| CustomizerStore.SetBackColor | src/store/customizerStore.ts:17 | sets the back colour and changes no other field |
| CustomizerStore.SetCameraPreset | src/store/customizerStore.ts:39 | sets the camera preset and changes no other field |
| CustomizerStore.SetZoomLevel | src/store/customizerStore.ts:40 | sets the zoom level and changes no other field |
| CustomizerStore.SettersCommute | src/store/customizerStore.ts:15-40 | setters of different fields commute, and the last write to a field wins |
| CustomizerStore.WithId | src/store/customizerStore.ts:21-24 | the stored label is the draft's fields with the new id |
| CustomizerStore.AddTextLabel | src/store/customizerStore.ts:19-25 | appends exactly one label, stamped with the id, at the end; the old labels keep their values and order; nothing else changes |
| CustomizerStore.Merge | src/store/customizerStore.ts:30 | each field the patch has replaces the label's, and each it lacks keeps the label's |
| CustomizerStore.MergeLaws | src/store/customizerStore.ts:30 | an empty patch changes nothing, and merging a patch twice is merging it once |
| CustomizerStore.UpdateAll | src/store/customizerStore.ts:29-31 | the length stays; labels with that id are merged and the others are kept |
| CustomizerStore.UpdateTextLabel | src/store/customizerStore.ts:27-32 | merges the patch into exactly the labels with that id; the length, the other labels and the other fields stay |
| CustomizerStore.UpdateNoOp | src/store/customizerStore.ts:27-32 | updating an absent id, or with an empty patch, changes nothing |
| CustomizerStore.UpdateKeepsIds | src/store/customizerStore.ts:27-32 | a patch without an id keeps every label's id |
| CustomizerStore.Without | src/store/customizerStore.ts:36 | the filter keeps exactly the labels with other ids |
| CustomizerStore.RemoveTextLabel | src/store/customizerStore.ts:34-37 | no label with the id remains, exactly the others stay, and nothing else changes |
| CustomizerStore.WithoutAppend | src/store/customizerStore.ts:36 | the filter works piece by piece, so the remaining labels keep their relative order |
| CustomizerStore.WithoutAbsent | src/store/customizerStore.ts:36 | filtering out an absent id changes nothing |
| CustomizerStore.RemoveAbsent | src/store/customizerStore.ts:34-37 | removing an absent id is a no-op |
| CustomizerStore.RemoveIdempotent | src/store/customizerStore.ts:34-37 | removing twice is removing once |
| CustomizerStore.RemoveUndoesAdd | src/store/customizerStore.ts:19-37 | removing a label just added under a fresh id restores the state |
| CustomizerStore.AddKeepsIdsDistinct | src/store/customizerStore.ts:19-25 | adding under a fresh id keeps the label ids distinct |
| CustomizerStore.Reset | src/store/customizerStore.ts:42-50 | reset empties the labels and sets the camera to `free` |
| CustomizerStore.ResetIsInitial | src/store/customizerStore.ts:42-50 | reset gives exactly the initial state of lines 7-12, with the `DEFAULT_COLORS`, whatever the state was, and is idempotent |
| TextLabelEditor.TrimStart | src/components/CustomizerPanel/TextLabelEditor.tsx:13 | the result is a suffix after white space only, and does not start with white space |
| TextLabelEditor.TrimEnd | src/components/CustomizerPanel/TextLabelEditor.tsx:13 | the result is a prefix before white space only, and does not end with white space |
| TextLabelEditor.Trim | src/components/CustomizerPanel/TextLabelEditor.tsx:11-13 | `trim()` is a contiguous part of the text with only white space around it and none at its ends |
| TextLabelEditor.TrimEmpty | src/components/CustomizerPanel/TextLabelEditor.tsx:11 | the trimmed text is empty exactly when the text is all white space |
| TextLabelEditor.TrimIdempotent | src/components/CustomizerPanel/TextLabelEditor.tsx:13 | trimming twice is trimming once |
| TextLabelEditor.DisabledIffCannotAdd | src/components/CustomizerPanel/TextLabelEditor.tsx:58 | the Add button is disabled exactly when `handleAdd` would add nothing |
| TextLabelEditor.Draft | src/components/CustomizerPanel/TextLabelEditor.tsx:12-19 | the new label has the trimmed text, the chosen side, font size 48, colour `#000000` and x = y = 0.5 |
| TextLabelEditor.AddOn | src/components/CustomizerPanel/TextLabelEditor.tsx:10-22 | when the trimmed text is non-empty and there are fewer than 5 labels, the store adds the draft and the input is cleared; otherwise store and input are unchanged |
| TextLabelEditor.AddedTextTrimmed | src/components/CustomizerPanel/TextLabelEditor.tsx:11-13 | an added label has non-empty text with no white space at either end, under the store's id |
| TextLabelEditor.AtMostFive | src/components/CustomizerPanel/TextLabelEditor.tsx:11 | from at most 5 labels, any run of presses through the editor never goes past 5 |
| TextLabelEditor.Editor.constructor | src/components/CustomizerPanel/TextLabelEditor.tsx:7-8 | the input starts empty with the front side selected |
| TextLabelEditor.Editor.SetText | src/components/CustomizerPanel/TextLabelEditor.tsx:30 | typing replaces the text and keeps the side |
| TextLabelEditor.Editor.SetPosition | src/components/CustomizerPanel/TextLabelEditor.tsx:42-50 | the Front and Back buttons set the side and keep the text |
| TextLabelEditor.Editor.HandleAdd | src/components/CustomizerPanel/TextLabelEditor.tsx:10-22 | the new store and input are those of `AddOn`, and the side stays |
| ZoneSplit.Min | scripts/separate_shirt_zones.py:37-39 | the minimum is one of the values and at most each |
| ZoneSplit.Max | scripts/separate_shirt_zones.py:38-40 | the maximum is one of the values and at least each |
| ZoneSplit.BoundsOf | scripts/separate_shirt_zones.py:37-40 | the bounds are ordered and contain every vertex |
| ZoneSplit.SplitOf | scripts/separate_shirt_zones.py:82-85 | the centre is the midpoint of the bounds on both axes, and the sleeve threshold is 30% of the x range |
| ZoneSplit.SumXBounds | scripts/separate_shirt_zones.py:89 | the sum of a face's vertex x values lies between n times the lowest and n times the highest x |
| ZoneSplit.CenterWithin | scripts/separate_shirt_zones.py:89 | a polygon's mean x lies between any bounds on the vertices' x |
| ZoneSplit.FaceCenterInBounds | scripts/separate_shirt_zones.py:87-90 | a polygon's centre lies within the mesh's x bounds |
| ZoneSplit.SleeveNearEdge | scripts/separate_shirt_zones.py:85-98 | the sleeves keep only polygons whose centre is in the outer fifth of the width on either side |
| ZoneSplit.Partition | scripts/separate_shirt_zones.py:95-104 | every polygon is kept by exactly one of `sleeves`, `front` and `back` |
| ZoneSplit.TieGoesToBack | scripts/separate_shirt_zones.py:101-104 | a torso polygon exactly at `center_y` goes to the back, not the front |
| ZoneSplit.OtherZoneKeepsNothing | scripts/separate_shirt_zones.py:95-104 | any other zone name keeps no polygon |
| ZoneSplit.SelectForDeletion | scripts/separate_shirt_zones.py:87-106 | the loop selects each polygon for deletion exactly when the zone does not keep it |
| ZoneSplit.PartNamesMatchLookups | scripts/separate_shirt_zones.py:50-62 | the three objects are named `sleeves`, `front_torso` and `back_torso`, the names the zone effect looks up |
| ZoneSplit.EachFaceInOneCopy | scripts/separate_shirt_zones.py:95-120 | each face survives in exactly one of the three copies |

## Left out

- WebGL and rendering plumbing is not modelled: the renderer, lights, OrbitControls construction, the resize handler, `controls.dispose()` and `renderer.dispose()` are library and DOM calls. So is `isWebGLAvailable`.
- The render loop is reduced to whether a frame is requested (`CameraRig.RenderFrame`). The browser's frame scheduling is not modelled: the clock readings at which a transition's frames run are a parameter of `CameraRig.Frames`.
- GLTFLoader fetching and parsing is not modelled. The loaded root and its bounding box are parameters of `Canvas.OnLoadSuccess`, so the box is not computed from the geometry (`Box3.setFromObject`).
- `createTextTexture` draws on a 2D canvas. It is modelled as a fresh live texture recording the label's text, font size and colour.
- `TextRenderer.tsx` and its `useTextRenderer` call are not part of this model. The component loads a font over the network and looks up the mesh names `Front` and `Back`, which no zone has.
- Label ids come from `Date.now()` and `Math.random()`. Here the id is a parameter, and the freshness that removal and distinctness need is a precondition.
- React effect scheduling and zustand subscription delivery are not modelled. Each effect run, cleanup and subscriber callback is an explicit method call, and `performance.now()` is a `now` parameter.
- Floating-point precision is not modelled: easing, lerp and normalisation are over reals, and pi is a decimal constant.
- Colours are strings. `hexToThreeColor` is not modelled apart from the assignment of the given colour.
- `needsUpdate` flags and console logging are left out: they have no effect on ownership or state.
- `camera.lookAt` and the camera's rotation are left out. Only the camera's position is modelled.
- `ThreeCanvas.LoadSuccessOn`: when the longest side is 0 the model keeps its loaded transform. JavaScript would apply a non-finite scale, which reals cannot express.
- `ThreeScene.CameraRig.OnStoreChange`: the `if (!preset) return` branch is not modelled. Every non-free preset is in `CAMERA_PRESETS`, so the branch cannot be taken.
- `ThreeScene.CameraRig.Teardown`: only the render loop's frame id is cancelled. Transition frames are not tracked by the source, so the model does not cancel them either.
- Overlapping transitions are modelled, one per store change, but no lemma says how two running transitions interact with the camera.
- `ThreeScene.MeshesUnder`: the `if (object.geometry)` and `if (object.material)` checks are not modelled, because every modelled mesh has both. The scene traversal reaches only the model roots in the scene, which are the only objects holding meshes here.
- The input's `maxLength={20}` is enforced by the browser and is not modelled.
- The label list's Remove button calls the store directly and is modelled by `CustomizerStore.RemoveTextLabel`.
- In the label effect, removal and cleanup dispose a plane's material only when it is a single material. That is the source's `instanceof THREE.Material` check, and it is modelled as written.
- `ZoneSplit.BoundsOf` requires at least one vertex. On an empty mesh Python's `min` raises and the script stops, and that error path is not modelled.
- Ownership is followed for one model at a time. `ShirtLabels.RerunKeepsExclusive` covers a re-run on the same model; a re-run that moves the planes' cleanup from one model to another is not related to ownership.
- `ShirtModel.ZonePassEstablishes` takes two premises. First, every live material of the freshly loaded heap is held by a mesh of the model (`HeldByModel`), as after a GLTF load; the loader itself is not modelled. Second, every mesh of the model lies under a zone root, or no zone root is found (`ZonesCover`). Without the second, a mesh outside every zone that shares a material with a zone mesh keeps the shared material after the zone pass disposes it, so ownership is not exclusive; the model states no property for that case.
- Textures are outside the ownership invariant. The label effect never disposes a removed plane's texture, and `ShirtLabels.CleanupLeavesTextures` states that as the source does it.
- `ZoneSplit.FaceCenter` requires a face with at least one vertex, as every Blender polygon has.
- The Blender `bpy.ops` calls (import, duplicate, mode switches, loose-vertex deletion, export) are not modelled. Only the keep rule, the selection loop and the object names are.
- `scripts/inspect-glb.cjs`, the Puppeteer scripts and the presentational components are not part of this model.
