# Skin weights, prefab outliner and translation results — a Dafny model

This project models three small pieces of the o3de engine and proves properties about them.

- **The AssImp skin-weights importer** (`SkinWeights`, `SkinWeightsLinks`, `SkinWeightsLifecycle`,
  `DecimalText`). Importing takes two phases. First, while the scene graph is built,
  `ImportSkinWeights` runs for every appended node. For every mesh bone that carries weights it
  sanitises the name `SkinWeight_<b>`, creates a fresh `SkinWeightData` object and queues a
  pending record (a reference to the bone, the mesh's vertex count, the data object). It then
  asks the graph to add a child node under the sanitised name. If that fails, the bone
  contributes `Failure`. Otherwise the data-populated event is processed and, unless that
  failed, the attribute data node is added. Then, when the scene is finalised,
  `SetupNamedBoneLinks` drains the queue. It reads each bone through its reference, as the
  scene stands at that point. It sizes every data object to its mesh's vertex count, looks the
  bone id up once by the bone's current name, and appends one link per current weight. It
  returns `Ignored` when the queue was empty and `Success` otherwise. The importer is an immutable record threaded through both
  phases; `ImportScene` runs both phases over a sequence of appended nodes, as the two calls the
  importer binds itself to do. A counter stands for the identity `make_shared` gives each new
  data object.
- **The prefab outliner's last-visible-child query** (`PrefabOutliner`). `GetLastVisibleChild`
  moves the index to the name column. It then walks from a row to its last child for as long as
  the row is expanded and has children. `IsLastVisibleChild` compares a child index, moved to the
  name column, with that result. The item model is a tree of rows with expanded flags. An index
  is a row path plus a column.
- **The script-canvas translation result types** (`TranslationResult`). They are:
  - the target bitmask;
  - `RuntimeInputs`, with its defaulted constructor and copy;
  - `TargetResult`;
  - the per-target `Errors` and `Translations` maps;
  - `Result` and `LuaAssetResult`.

The importer's collaborators are all outside it: the scene graph, node-name sanitising, event
processing, the result combiner and the skin-weight data class. They are oracles.
- The scene graph is the log of calls the importer makes on it (`HostCall`). The sanitiser,
  `AddChild`, event processing and the attribute-node call receive that log, so each can answer
  whatever a stateful graph could answer. The result combiner receives only the ordered list of
  results added to it.
- `SkinWeightData::GetBoneId` is the parameter `boneIdOf`.
- Phase two's effect on each data object is the ordered list of calls made on it (`DataOp`).

The importer's claims are proved against independent reference definitions:
- `WeightedBones`, `NodeWeightedBones` and `SceneWeightedBones`: which bones should be queued, in
  node, mesh and bone order;
- `Enqueued`: the records that should result, numbered from the first fresh identity;
- `ObjectCalls`: what a data object should receive;
- `AddChildCount`: how many attribute nodes were attempted.

The outliner walk is proved against `LastChildChain`, a relational description of the walk, and
against `DisplayedRows`, the rows a tree view displays top to bottom.

## Model

| member | source | states |
|---|---|---|
| `DecimalText.ToDecimal` | Code/Tools/SceneAPI/FbxSceneBuilder/Importers/AssImpSkinWeightsImporter.cpp:76 | `to_string` of an unsigned gives a non-empty digit string with no leading zero, starting with '0' exactly for 0 |
| `DecimalText.ParseToDecimal` | Code/Tools/SceneAPI/FbxSceneBuilder/Importers/AssImpSkinWeightsImporter.cpp:76 | reading the decimal text of `n` back gives `n` |
| `DecimalText.ToDecimalParse` | Code/Tools/SceneAPI/FbxSceneBuilder/Importers/AssImpSkinWeightsImporter.cpp:76 | every canonical digit string is the decimal text of its value |
| `SkinWeights.SkinWeightName` | Code/Tools/SceneAPI/FbxSceneBuilder/Importers/AssImpSkinWeightsImporter.cpp:75-76 | the unsanitised node name is `SkinWeight_` followed by something, and the bone index can be read back from it |
| `SkinWeights.BoneIndexOfNameInverse` | Code/Tools/SceneAPI/FbxSceneBuilder/Importers/AssImpSkinWeightsImporter.cpp:75-76 | every name the reader accepts is exactly the node name of the index it reads |
| `SkinWeights.SkinWeightNameInjective` | Code/Tools/SceneAPI/FbxSceneBuilder/Importers/AssImpSkinWeightsImporter.cpp:66-76 | different bones of a mesh get different unsanitised names |
| `SkinWeights.BuildSkinWeightData` | Code/Tools/SceneAPI/FbxSceneBuilder/Importers/AssImpSkinWeightsImporter.cpp:107-121 | the record (bone reference, vertex count, new object) is appended at the end of the queue; the new object differs from every queued one, and queued objects stay distinct and in creation order |
| `SkinWeights.AttachSkinWeight` | Code/Tools/SceneAPI/FbxSceneBuilder/Importers/AssImpSkinWeightsImporter.cpp:81-100 | the first graph call for a skin-weight node is `AddChild` under the current position with the given name, and the earlier log is untouched |
| `SkinWeights.ImportBone` | Code/Tools/SceneAPI/FbxSceneBuilder/Importers/AssImpSkinWeightsImporter.cpp:66-101 | a bone without weights changes nothing: no node, no record, no result. A weighted bone queues exactly one record at the end, referring to that bone of that mesh, whatever the graph calls return, and adds exactly one combined result |
| `SkinWeights.ImportBoneOutcome` | Code/Tools/SceneAPI/FbxSceneBuilder/Importers/AssImpSkinWeightsImporter.cpp:77-100 | for a weighted bone the first graph call is `AddChild` with the sanitised name. A failed `AddChild` combines `Failure` and makes no further call. Otherwise the data-populated event is processed; the attribute node is added and its result combined exactly when processing did not fail, and `Failure` is combined when it did |
| `SkinWeights.ImportBoneAddsChild` | Code/Tools/SceneAPI/FbxSceneBuilder/Importers/AssImpSkinWeightsImporter.cpp:70-100 | one bone only appends to the graph log, with exactly one `AddChild` if it is weighted and none otherwise |
| `SkinWeights.AttachAddsOneChild` | Code/Tools/SceneAPI/FbxSceneBuilder/Importers/AssImpSkinWeightsImporter.cpp:81-100 | attaching one node only appends to the graph log and makes exactly one `AddChild`, whichever way the later calls go |
| `SkinWeights.MeshWeightedBonesOf` | Code/Tools/SceneAPI/FbxSceneBuilder/Importers/AssImpSkinWeightsImporter.cpp:64-79 | every reference the bone loop queues for a mesh points at a bone of that mesh that carries weights, paired with the mesh's vertex count |
| `SkinWeights.NodeWeightedBonesOf` | Code/Tools/SceneAPI/FbxSceneBuilder/Importers/AssImpSkinWeightsImporter.cpp:62-79 | every reference queued for a node points at a weighted bone of one of the node's meshes in the scene, paired with that mesh's vertex count |
| `SkinWeights.EnqueuedKeepsFreshHandles` | Code/Tools/SceneAPI/FbxSceneBuilder/Importers/AssImpSkinWeightsImporter.cpp:107-118 | appending freshly numbered records keeps the queued data objects pairwise distinct, in creation order and already allocated |
| `SkinWeights.ImportBoneStep` | Code/Tools/SceneAPI/FbxSceneBuilder/Importers/AssImpSkinWeightsImporter.cpp:66-101 | one iteration keeps the loop invariant against the reference: the queue is the old queue plus the numbered records of the weighted bones seen so far, one result and one `AddChild` per weighted bone, and nothing changed while no bone had weights |
| `SkinWeights.ImportMeshBones` | Code/Tools/SceneAPI/FbxSceneBuilder/Importers/AssImpSkinWeightsImporter.cpp:66-101 | the bone loop over one mesh adds exactly that mesh's weighted bones, in bone order, to what the invariant accounts for |
| `SkinWeights.ImportNodeMeshes` | Code/Tools/SceneAPI/FbxSceneBuilder/Importers/AssImpSkinWeightsImporter.cpp:62-102 | the mesh loop accounts, mesh by mesh, for exactly the weighted bones of the node's meshes: one queued record, one combined result and one `AddChild` each |
| `SkinWeights.ImportSkinWeights` | Code/Tools/SceneAPI/FbxSceneBuilder/Importers/AssImpSkinWeightsImporter.cpp:48-105 | a node without meshes is `Ignored` and changes nothing. Otherwise the queue becomes the old queue plus one record per weighted bone, in mesh-then-bone order, numbered from the next fresh object; one attribute node is attempted per weighted bone; the graph log only grows; the result is the combiner's answer over one result per weighted bone; with no weighted bone nothing changes. Fresh handles stay fresh |
| `SkinWeightsLinks.WeightOps` | Code/Tools/SceneAPI/FbxSceneBuilder/Importers/AssImpSkinWeightsImporter.cpp:134-141 | the k-th weight yields the k-th `AppendLink`, at that weight's vertex, with the looked-up bone id and that weight |
| `SkinWeightsLinks.RecordOps` | Code/Tools/SceneAPI/FbxSceneBuilder/Importers/AssImpSkinWeightsImporter.cpp:127-142 | every call for one record goes to that record's object: first a resize to the vertex count, then one bone-id lookup by the name the referenced bone has at finalisation, then one link per weight it has then, in weight order |
| `SkinWeightsLinks.SetupNamedBoneLinks` | Code/Tools/SceneAPI/FbxSceneBuilder/Importers/AssImpSkinWeightsImporter.cpp:123-146 | `Ignored` exactly when the queue was empty and `Success` exactly when it was not; the queue is cleared and nothing else of the importer changes; an empty queue makes no call. Every queued reference must point at a bone of the scene it is given |
| `SkinWeightsLinks.LinkOpsInQueueOrder` | Code/Tools/SceneAPI/FbxSceneBuilder/Importers/AssImpSkinWeightsImporter.cpp:127-142 | draining a queue `p + q` makes all the calls for `p`, then those for `q` |
| `SkinWeightsLinks.LinkOpsTargets` | Code/Tools/SceneAPI/FbxSceneBuilder/Importers/AssImpSkinWeightsImporter.cpp:127-142 | a data object that is not queued receives no call |
| `SkinWeightsLinks.RecordOpsCalls` | Code/Tools/SceneAPI/FbxSceneBuilder/Importers/AssImpSkinWeightsImporter.cpp:129-141 | a record's object receives exactly the reference call list: resize, bone-id lookup, then one link per weight |
| `SkinWeightsLinks.WeightOpsCalls` | Code/Tools/SceneAPI/FbxSceneBuilder/Importers/AssImpSkinWeightsImporter.cpp:134-141 | the weight loop gives the record's object exactly one reference link per weight, in weight order |
| `SkinWeightsLinks.LinkOpsPerObject` | Code/Tools/SceneAPI/FbxSceneBuilder/Importers/AssImpSkinWeightsImporter.cpp:127-142 | when queued objects are distinct, each one receives exactly its own record's calls, whatever else is in the queue |
| `SkinWeightsLinks.SetupNamedBoneLinksPerObject` | Code/Tools/SceneAPI/FbxSceneBuilder/Importers/AssImpSkinWeightsImporter.cpp:123-146 | draining a queue of fresh handles gives every queued object exactly its record's calls and no call to any other object |
| `SkinWeightsLinks.SecondSetupIsIgnored` | Code/Tools/SceneAPI/FbxSceneBuilder/Importers/AssImpSkinWeightsImporter.cpp:143-145 | a second drain straight after a first is `Ignored` and makes no call |
| `SkinWeightsLifecycle.SceneWeightedBonesOf` | Code/Tools/SceneAPI/FbxSceneBuilder/Importers/AssImpSkinWeightsImporter.cpp:48-79 | every reference queued over a scene points at a weighted bone of the scene, paired with its mesh's vertex count |
| `SkinWeightsLifecycle.SameLayoutResolves` | Code/Tools/SceneAPI/FbxSceneBuilder/Importers/AssImpSkinWeightsImporter.cpp:112-131 | a bone reference taken at import still points at a bone at finalisation when no mesh or bone has moved, whatever names and weights changed |
| `SkinWeightsLifecycle.AfterImportConcat` | Code/Tools/SceneAPI/FbxSceneBuilder/Importers/AssImpSkinWeightsImporter.cpp:107-121 | queuing the records of bones `b` after those of bones `a` is queuing those of `a + b`, numbered as one run |
| `SkinWeightsLifecycle.SceneStep` | Code/Tools/SceneAPI/FbxSceneBuilder/Importers/AssImpSkinWeightsImporter.cpp:48-121 | importing the next node extends the queue by that node's weighted bones, after those of the earlier nodes |
| `SkinWeightsLifecycle.ImportNodes` | Code/Tools/SceneAPI/FbxSceneBuilder/Importers/AssImpSkinWeightsImporter.cpp:48-121 | phase one over a sequence of appended nodes, on one importer and one graph: every node without meshes is `Ignored`, the queue gains every node's weighted bones in node order, and the graph log only grows |
| `SkinWeightsLifecycle.DrainAfterImport` | Code/Tools/SceneAPI/FbxSceneBuilder/Importers/AssImpSkinWeightsImporter.cpp:123-146 | draining after bones were imported is `Success` exactly when the queue holds anything and `Ignored` exactly when it holds nothing, clears it, touches no object outside the queue, gives every earlier record its calls and gives the k-th imported bone's object exactly the calls for that bone as the finalisation scene holds it |
| `SkinWeightsLifecycle.DrainUntouched` | Code/Tools/SceneAPI/FbxSceneBuilder/Importers/AssImpSkinWeightsImporter.cpp:127-142 | a data object neither queued before the import nor created for an imported bone receives no call |
| `SkinWeightsLifecycle.DrainEarlierRecord` | Code/Tools/SceneAPI/FbxSceneBuilder/Importers/AssImpSkinWeightsImporter.cpp:127-142 | a record queued before the import still receives exactly its own calls |
| `SkinWeightsLifecycle.DrainAddedRecord` | Code/Tools/SceneAPI/FbxSceneBuilder/Importers/AssImpSkinWeightsImporter.cpp:127-142 | the object of the k-th imported bone receives exactly that bone's calls |
| `SkinWeightsLifecycle.AfterImportDistinct` | Code/Tools/SceneAPI/FbxSceneBuilder/Importers/AssImpSkinWeightsImporter.cpp:107-118 | after importing, the queued data objects are pairwise distinct |
| `SkinWeightsLifecycle.ImportScene` | Code/Tools/SceneAPI/FbxSceneBuilder/Importers/AssImpSkinWeightsImporter.cpp:33-146 | both bound calls over one scene: each appended node's result, with `Ignored` for a node without meshes; every queued reference points at a weighted bone of the scene; finalising is `Success` exactly when something was queued before or during the scene and `Ignored` exactly when nothing was; the queue ends empty; every queued object, earlier or new, receives exactly its record's calls, with the bone's name and weights read from the scene as it stands at finalisation; no other data object receives a call |
| `PrefabOutliner.NameColumn` | Code/Framework/AzToolsFramework/AzToolsFramework/UI/Prefab/PrefabUiHandler.cpp:213-216 | the sibling in the name column keeps the row, and an index already in the name column is left as it is |
| `PrefabOutliner.LastVisibleFrom` | Code/Framework/AzToolsFramework/AzToolsFramework/UI/Prefab/PrefabUiHandler.cpp:221-232 | a collapsed or childless row is returned unchanged. Otherwise the result is in the name column and extends the index's row path by a chain of last-child steps through expanded rows, ending at a settled row |
| `PrefabOutliner.InternalGetLastVisibleChild` | Code/Framework/AzToolsFramework/AzToolsFramework/UI/Prefab/PrefabUiHandler.cpp:221-232 | an index that names no row (the invisible root or an invalid path) is returned unchanged |
| `PrefabOutliner.GetLastVisibleChild` | Code/Framework/AzToolsFramework/AzToolsFramework/UI/Prefab/PrefabUiHandler.cpp:207-219 | the result is in the name column and is the parent's row or one of its descendants |
| `PrefabOutliner.IsLastVisibleChild` | Code/Framework/AzToolsFramework/AzToolsFramework/UI/Prefab/PrefabUiHandler.cpp:193-205 | true exactly when the child's row is the row `GetLastVisibleChild` returns, whatever the child's column |
| `PrefabOutliner.LastChildChainUnique` | Code/Framework/AzToolsFramework/AzToolsFramework/UI/Prefab/PrefabUiHandler.cpp:221-232 | at most one chain of last-child steps from a row ends at a settled row, so the walk's result is determined |
| `PrefabOutliner.LastVisibleFromFollowsChain` | Code/Framework/AzToolsFramework/AzToolsFramework/UI/Prefab/PrefabUiHandler.cpp:221-232 | the walk returns the index's row path extended by exactly the last-child chain |
| `PrefabOutliner.LastVisibleIsBottomRow` | Code/Framework/AzToolsFramework/AzToolsFramework/UI/Prefab/PrefabUiHandler.cpp:221-232 | the walk ends at the bottom row the view displays for the subtree |
| `PrefabOutliner.GetLastVisibleChildIgnoresColumn` | Code/Framework/AzToolsFramework/AzToolsFramework/UI/Prefab/PrefabUiHandler.cpp:212-218 | any column of the parent row gives the same result |
| `PrefabOutliner.IsLastVisibleChildIgnoresColumns` | Code/Framework/AzToolsFramework/AzToolsFramework/UI/Prefab/PrefabUiHandler.cpp:193-205 | the answer does not depend on the parent's or the child's column |
| `PrefabOutliner.SettledRowIsOwnLastChild` | Code/Framework/AzToolsFramework/AzToolsFramework/UI/Prefab/PrefabUiHandler.cpp:223-226 | a collapsed or childless parent row is its own last visible child |
| `PrefabOutliner.IsLastVisibleChildIsBottomRow` | Code/Framework/AzToolsFramework/AzToolsFramework/UI/Prefab/PrefabUiHandler.cpp:193-232 | for a row the model holds, `IsLastVisibleChild` holds exactly of the bottom row the view displays for the parent's subtree |
| `TranslationResult.Bit` | Gems/ScriptCanvas/Code/Include/ScriptCanvas/Translation/TranslationResult.h:43-48 | each target flag's value has exactly one bit set, within the three low bits |
| `TranslationResult.BitsDisjoint` | Gems/ScriptCanvas/Code/Include/ScriptCanvas/Translation/TranslationResult.h:43-48 | different flags share no bit, so their values differ |
| `TranslationResult.MaskOf` | Gems/ScriptCanvas/Code/Include/ScriptCanvas/Translation/TranslationResult.h:43-48 | the mask of a set of targets has a flag's bit set exactly when the flag is in the set, and no bit outside the three flags |
| `TranslationResult.TargetsOf` | Gems/ScriptCanvas/Code/Include/ScriptCanvas/Translation/TranslationResult.h:43-48 | a flag is among a mask's targets exactly when its bit is set |
| `TranslationResult.MaskRoundTrip` | Gems/ScriptCanvas/Code/Include/ScriptCanvas/Translation/TranslationResult.h:43-48 | a set of targets is recovered from its mask |
| `TranslationResult.TargetsRoundTrip` | Gems/ScriptCanvas/Code/Include/ScriptCanvas/Translation/TranslationResult.h:43-48 | a mask within the three flag bits is the mask of the targets it names |
| `TranslationResult.DefaultRuntimeInputs` | Gems/ScriptCanvas/Code/Include/ScriptCanvas/Translation/TranslationResult.h:58-68 | a default-built `RuntimeInputs` is interpreted, per-entity, with all four vectors empty |
| `TranslationResult.CopyRuntimeInputs` | Gems/ScriptCanvas/Code/Include/ScriptCanvas/Translation/TranslationResult.h:69-74 | the defaulted copy constructor and copy assignment give a value equal to the source in every member |

## Left out

- The foreign collaborators of the importer are oracles, not models, because their code is not part of this model: `RenamedNodesMap::SanitizeNodeName`, `SceneGraph::AddChild`, `Events::Process`, `AddAttributeDataNodeWithContexts`, `ProcessingResultCombiner` and `SkinWeightData`. Nothing is assumed about their answers beyond their types. The combiner is a function of the ordered list of results added to it.
- `SanitizeNodeName` rewrites the name in place; here it returns the new name.
- `SkinWeights.ImportSkinWeights` requires every mesh index of the node to name a mesh of the scene. The AssImp loader guarantees this, and the source indexes `mMeshes` without checking.
- Bone weights are floats that the importer only copies, so they are opaque `real` values.
- The unsigned loop counters and vertex ids are unbounded naturals, because no counter in these loops can reach the 32-bit limit.
- The `AZ_Error` and `AZ_TraceContext` diagnostics are not modelled, because they are logging only.
- The `Reflect` registration and the constructor's `BindToCall` calls are not modelled, because they only wire the importer into the event system.
- A data object whose `AddChild` failed is still queued and still receives its links in phase two. `ImportBone` states this as the source does it. Whether it is intended cannot be told from the file, so it is not reported as a finding.
- `SkinWeights.ImportSkinWeights` states the node's result only as the combiner's answer over some list of one result per weighted bone. Which result each bone contributes is stated per bone by `SkinWeights.ImportBoneOutcome`, not gathered into the node's contract.
- `SkinWeightsLifecycle.ImportScene` requires the starting importer's handles to be fresh; a new importer, with an empty queue, meets this. It also requires the scene at finalisation to keep every mesh and bone at the position it had at import (`SameLayout`), and every earlier record to point at a bone of it, because the source dereferences the queued `aiBone*` references; names and weights may change in between. Between two appended nodes the scene builder's other importers also change the graph; here the graph log carries only this importer's calls, and every oracle may answer anything, so no behaviour of those importers is excluded.
- The graph positions of the appended nodes are inputs, because the scene builder assigns them.
- `PrefabOutliner` assumes that `EntityOutlinerListModel::ColumnName` is column 0 and that `ChildCountRole` equals the number of child rows, because that model's code is not part of this model.
- `PrefabOutliner.GetLastVisibleChild`: for an index that names no row (the invisible root or an invalid path) the source takes the index's model, which is null for such an index, and `Internal_GetLastVisibleChild` dereferences it (PrefabUiHandler.cpp:209, 218, 223). The model makes this case total and returns the index unchanged, as `PrefabOutliner.InternalGetLastVisibleChild` states; the source promises nothing there.
- The painting methods of `PrefabUiHandler` are Qt drawing and are not modelled.
- `RuntimeInputs::GetParameterSize`, `SumDurations`, the three `Result` constructors, `Result::ErrorsToString`, `IsModelValid`, `IsSourceValid`, `IsSuccess` and `TranslationSucceed` are not modelled. So are the move constructor and move assignment of `RuntimeInputs`. The header gives only their signatures, and their definitions are not part of this model, so nothing is known about their results. Declaring them as oracles would add members with no contract to state.
- `TranslationResult.Result` is the record of its six const members. The header declares three constructors (from an invalid-source text, from a model, from a model with translations and errors) without bodies, so which members each one fills is not known, and the three ways of building a `Result` are not distinguished. The record cannot be changed once built, as the const members promise.
- `Errors` and `Translations` are keyed by the three named target flags. In C++ the key is the unscoped enum `TargetFlags`, whose values 0 to 7 include empty and combined masks, so such keys are legal there; the model cannot hold them, and nothing in the header builds one.
- No invariant links `Translations` and `Errors`. Nothing in the code says a target cannot appear in both maps, or that a requested target appears in one of them.
- The uniqueness of variable identifiers across the four `RuntimeInputs` vectors is not modelled, because the header does not establish it.
- `ExecutionMode` and `ExecutionCharacteristics` are two-valued here. The header names only `Interpreted` and `PerEntity`, and their full definitions are not part of this model.
- The grammar products (`SubgraphInterface`, `DebugSymbolMap`, the abstract code model, the script asset, the dependency report) are opaque handles, because only their storage is in the modelled header.
- The interpreted-execution API, the AWS, GPU-vendor, tangent-generator and UI declarations, and the editor test scripts are outside the modelled core.
