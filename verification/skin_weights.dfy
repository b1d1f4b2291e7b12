/**
  The AssImp skin-weights importer of the FBX scene builder.

  Importing runs in two phases. While the scene graph is being built, for every mesh bone
  that carries weights the name `SkinWeight_<b>` is sanitised, a fresh skin-weight data
  object is created and a pending record (a reference to the bone, vertex count, data
  object) is queued. A child node is then requested under the sanitised name; if that
  fails the bone contributes Failure, otherwise the data-populated event is processed
  and, unless that failed, the attribute data node is added. When the scene is
  finalised, the queue is drained: every data object is sized to the mesh's vertex
  count, and the bone is read through its reference, so its name and weights are those
  of the scene at that point. This module holds the importer's state and phase one;
  `SkinWeightsLinks` holds phase two.

  Collaborators outside the importer (the scene graph, the node-name sanitiser, event
  processing, the result combiner, the skin-weight data class) are oracles. The scene
  graph is represented by the log of calls the importer makes on it. The sanitiser,
  `AddChild`, event processing and the attribute-node call are handed that log, so each
  may answer anything a stateful graph could answer; the combiner sees only the ordered
  list of results added to it, and the bone-id lookup only the data object and the name.
 */
module SkinWeights {
  import opened Wrappers
  import DecimalText

  /** `Events::ProcessingResult`. */
  datatype ProcessingResult = Success | Ignored | Failure

  // ---------------------------------------------------------------------------
  // The source scene (aiScene, aiNode, aiMesh, aiBone)
  // ---------------------------------------------------------------------------

  /** One `aiVertexWeight`; the weight is a float the importer only copies. */
  datatype VertexWeight = VertexWeight(vertexId: nat, weight: real)

  /** An `aiBone`: `mNumWeights` is `|weights|`. */
  datatype Bone = Bone(name: string, weights: seq<VertexWeight>)

  /** An `aiMesh`: `mNumBones` is `|bones|`. */
  datatype Mesh = Mesh(numVertices: nat, bones: seq<Bone>)

  datatype SourceScene = SourceScene(meshes: seq<Mesh>)

  /** An `aiNode`: `mMeshes` holds indices into the scene's mesh array. */
  datatype SourceNode = SourceNode(meshes: seq<nat>)

  /** Every mesh index of the node names a mesh of the scene (the AssImp loader's guarantee). */
  predicate MeshesResolve(scene: SourceScene, node: SourceNode) {
    forall k | 0 <= k < |node.meshes| :: node.meshes[k] < |scene.meshes|
  }

  /** An `aiBone*` into the scene: bone `bone` of the scene's mesh `mesh`. */
  datatype BoneRef = BoneRef(mesh: nat, bone: nat)

  predicate Resolves(scene: SourceScene, r: BoneRef) {
    r.mesh < |scene.meshes| && r.bone < |scene.meshes[r.mesh].bones|
  }

  /** The bone a reference points at, as the scene holds it now. */
  function BoneAt(scene: SourceScene, r: BoneRef): Bone
    requires Resolves(scene, r)
  {
    scene.meshes[r.mesh].bones[r.bone]
  }

  /**
    `later` has the meshes and bones of `scene` at the same positions, so every bone
    reference into `scene` still points at a bone; names and weights may differ.
   */
  predicate SameLayout(scene: SourceScene, later: SourceScene) {
    && |later.meshes| == |scene.meshes|
    && forall m | 0 <= m < |scene.meshes| :: |later.meshes[m].bones| == |scene.meshes[m].bones|
  }

  // ---------------------------------------------------------------------------
  // Collaborators
  // ---------------------------------------------------------------------------

  /** `SceneGraph::NodeIndex`; an invalid index is `None`. */
  type NodeIndex = nat

  /** Identity of a `SkinWeightData` object created by `make_shared`. */
  type DataId = nat

  /** A call the importer makes that may change the scene graph. */
  datatype HostCall =
    | AddChild(parent: NodeIndex, name: string)
    | ProcessDataPopulated(node: NodeIndex, name: string, data: DataId)
    | AddAttributeDataNode(node: NodeIndex, name: string, data: DataId)

  /**
    The foreign operations phase one relies on. Each receives the log of graph calls made
    so far (standing for the graph's current state):
    `RenamedNodesMap::SanitizeNodeName`, `SceneGraph::AddChild`, `Events::Process` on the
    data-populated context, `AddAttributeDataNodeWithContexts`, and the reduction that
    `ProcessingResultCombiner::GetResult` applies to the results added to it.
   */
  datatype SceneHost = SceneHost(
    sanitizeNodeName: (seq<HostCall>, string, NodeIndex) -> string,
    addChild: (seq<HostCall>, NodeIndex, string) -> Option<NodeIndex>,
    processDataPopulated: (seq<HostCall>, NodeIndex, string, DataId) -> ProcessingResult,
    addAttributeDataNode: (seq<HostCall>, NodeIndex, string, DataId) -> ProcessingResult,
    combinedResult: seq<ProcessingResult> -> ProcessingResult)

  // ---------------------------------------------------------------------------
  // Importer state
  // ---------------------------------------------------------------------------

  /** One entry of `m_pendingSkinWeights`: the bone is held by reference, not copied. */
  datatype Pending = Pending(bone: BoneRef, numVertices: nat, data: DataId)

  /** The importer object: its pending queue and the next fresh data-object identity. */
  datatype Importer = Importer(pending: seq<Pending>, nextData: DataId)

  /** Every queued bone reference points at a bone of `scene`. */
  predicate QueueResolves(scene: SourceScene, queue: seq<Pending>) {
    forall i | 0 <= i < |queue| :: Resolves(scene, queue[i].bone)
  }

  /** Every queued data object is distinct, in creation order, and already allocated. */
  predicate FreshHandles(imp: Importer) {
    && (forall i, j | 0 <= i < j < |imp.pending| :: imp.pending[i].data < imp.pending[j].data)
    && (forall i | 0 <= i < |imp.pending| :: imp.pending[i].data < imp.nextData)
  }

  /** State threaded through the bone loop of `ImportSkinWeights`. */
  datatype ImportState = ImportState(
    importer: Importer,
    graphCalls: seq<HostCall>,
    combined: seq<ProcessingResult>)   // results added to the local combiner, in order

  // ---------------------------------------------------------------------------
  // Node names
  // ---------------------------------------------------------------------------

  const SkinWeightPrefix: string := "SkinWeight_"

  /** Name given to the attribute node of bone `b` before sanitisation. */
  function SkinWeightName(b: nat): (name: string)
    ensures |name| > |SkinWeightPrefix| && name[..|SkinWeightPrefix|] == SkinWeightPrefix
    ensures BoneIndexOfName(name) == Some(b)
  {
    var digits := DecimalText.ToDecimal(b);
    var name := SkinWeightPrefix + digits;
    assert name[|SkinWeightPrefix|..] == digits;
    DecimalText.ParseToDecimal(b);
    name
  }

  /** Reads the bone index back out of an unsanitised skin-weight node name. */
  function BoneIndexOfName(name: string): Option<nat> {
    if |name| > |SkinWeightPrefix|
       && name[..|SkinWeightPrefix|] == SkinWeightPrefix
       && DecimalText.IsCanonical(name[|SkinWeightPrefix|..])
    then Some(DecimalText.ParseDecimal(name[|SkinWeightPrefix|..]))
    else None
  }

  /** Every name `BoneIndexOfName` accepts is the name of the bone index it returns. */
  lemma BoneIndexOfNameInverse(name: string)
    requires BoneIndexOfName(name).Some?
    ensures SkinWeightName(BoneIndexOfName(name).value) == name
  {
    var digits := name[|SkinWeightPrefix|..];
    DecimalText.ToDecimalParse(digits);
    assert name == SkinWeightPrefix + digits;
  }

  /** Distinct bones of one mesh get distinct names. */
  lemma SkinWeightNameInjective(b1: nat, b2: nat)
    requires SkinWeightName(b1) == SkinWeightName(b2)
    ensures b1 == b2
  {
    assert BoneIndexOfName(SkinWeightName(b1)) == Some(b1);
  }

  // ---------------------------------------------------------------------------
  // Phase one: ImportSkinWeights
  // ---------------------------------------------------------------------------

  /**
    `BuildSkinWeightData`: creates a fresh data object and queues a pending record for it
    at the end of the queue.
   */
  function BuildSkinWeightData(imp: Importer, bone: BoneRef, numVertices: nat): (r: (Importer, DataId))
    ensures r.0.pending == imp.pending + [Pending(bone, numVertices, r.1)]
    ensures FreshHandles(imp) ==> FreshHandles(r.0)
    ensures FreshHandles(imp) ==> forall i | 0 <= i < |imp.pending| :: imp.pending[i].data != r.1
  {
    (Importer(imp.pending + [Pending(bone, numVertices, imp.nextData)], imp.nextData + 1), imp.nextData)
  }

  /** Graph calls made for one skin-weight node, and the result it adds to the combiner. */
  datatype Attached = Attached(graphCalls: seq<HostCall>, result: ProcessingResult)

  /**
    The graph part of one iteration: add the node under `position`; if that fails the
    result is Failure; otherwise process the data-populated event and, unless that
    failed, add the attribute data node, whose result is the iteration's result.
   */
  function AttachSkinWeight(host: SceneHost, position: NodeIndex, graphCalls: seq<HostCall>, name: string,
                            data: DataId): (a: Attached)
    // the first call is AddChild under the current position, and nothing before it changes
    ensures |a.graphCalls| > |graphCalls| && a.graphCalls[..|graphCalls| + 1] == graphCalls + [AddChild(position, name)]
  {
    var log1 := graphCalls + [AddChild(position, name)];
    match host.addChild(graphCalls, position, name)
    case None =>
      Attached(log1, Failure)
    case Some(node) =>
      var log2 := log1 + [ProcessDataPopulated(node, name, data)];
      var processed := host.processDataPopulated(log1, node, name, data);
      if processed != Failure then
        Attached(log2 + [AddAttributeDataNode(node, name, data)], host.addAttributeDataNode(log2, node, name, data))
      else
        Attached(log2, processed)
  }

  /** One iteration of the bone loop of `ImportSkinWeights`, for bone `b` of `mesh`, the scene's mesh `meshIndex`. */
  function ImportBone(host: SceneHost, position: NodeIndex, meshIndex: nat, mesh: Mesh, b: nat, st: ImportState)
    : (st': ImportState)
    requires b < |mesh.bones|
    // a bone without weights is skipped: no node, no pending record, no result
    ensures |mesh.bones[b].weights| == 0 ==> st' == st
    // otherwise exactly one record is queued, at the end, whatever the graph calls return,
    // and exactly one result is added to the combiner
    ensures |mesh.bones[b].weights| > 0 ==>
              && st'.importer == Importer(st.importer.pending + [Pending(BoneRef(meshIndex, b), mesh.numVertices, st.importer.nextData)],
                                          st.importer.nextData + 1)
              && |st'.combined| == |st.combined| + 1 && st'.combined[..|st.combined|] == st.combined
  {
    var bone := mesh.bones[b];
    if |bone.weights| == 0 then
      st
    else
      // the node name is sanitised before the data object is built and the node is added
      var name := host.sanitizeNodeName(st.graphCalls, SkinWeightName(b), position);
      var (importer, data) := BuildSkinWeightData(st.importer, BoneRef(meshIndex, b), mesh.numVertices);
      var attached := AttachSkinWeight(host, position, st.graphCalls, name, data);
      ImportState(importer, attached.graphCalls, st.combined + [attached.result])
  }

  /**
    What one weighted bone does to the graph and the combiner. The first call is `AddChild`
    under the current position with the sanitised name. A failed `AddChild` adds Failure
    and makes no further call; otherwise the data-populated event is processed, and the
    attribute data node is added, with its result combined, exactly when processing did
    not fail.
   */
  lemma ImportBoneOutcome(host: SceneHost, position: NodeIndex, meshIndex: nat, mesh: Mesh, b: nat, st: ImportState)
    requires b < |mesh.bones| && |mesh.bones[b].weights| > 0
    ensures var st' := ImportBone(host, position, meshIndex, mesh, b, st);
            var name := host.sanitizeNodeName(st.graphCalls, SkinWeightName(b), position);
            var log1 := st.graphCalls + [AddChild(position, name)];
            match host.addChild(st.graphCalls, position, name)
            case None =>
              st'.graphCalls == log1 && st'.combined == st.combined + [Failure]
            case Some(node) =>
              var data := st.importer.nextData;
              var log2 := log1 + [ProcessDataPopulated(node, name, data)];
              if host.processDataPopulated(log1, node, name, data) == Failure then
                st'.graphCalls == log2 && st'.combined == st.combined + [Failure]
              else
                && st'.graphCalls == log2 + [AddAttributeDataNode(node, name, data)]
                && st'.combined == st.combined + [host.addAttributeDataNode(log2, node, name, data)]
  {
  }

  /** One weighted bone makes exactly one `AddChild` call; an unweighted one makes none. */
  lemma ImportBoneAddsChild(host: SceneHost, position: NodeIndex, meshIndex: nat, mesh: Mesh, b: nat, st: ImportState)
    requires b < |mesh.bones|
    ensures var st' := ImportBone(host, position, meshIndex, mesh, b, st);
            && |st'.graphCalls| >= |st.graphCalls| && st'.graphCalls[..|st.graphCalls|] == st.graphCalls
            && AddChildCount(st'.graphCalls) == AddChildCount(st.graphCalls) + |WeightedBone(meshIndex, mesh, b)|
  {
    if |mesh.bones[b].weights| > 0 {
      var name := host.sanitizeNodeName(st.graphCalls, SkinWeightName(b), position);
      AttachAddsOneChild(host, position, st.graphCalls, name, st.importer.nextData);
    }
  }

  /** Attaching one skin-weight node only appends to the graph log, with exactly one `AddChild`. */
  lemma AttachAddsOneChild(host: SceneHost, position: NodeIndex, graphCalls: seq<HostCall>, name: string, data: DataId)
    ensures var a := AttachSkinWeight(host, position, graphCalls, name, data);
            && |a.graphCalls| >= |graphCalls| && a.graphCalls[..|graphCalls|] == graphCalls
            && AddChildCount(a.graphCalls) == AddChildCount(graphCalls) + 1
  {
    var log1 := graphCalls + [AddChild(position, name)];
    AddChildCountAppend(graphCalls, [AddChild(position, name)]);
    assert [AddChild(position, name)][..0] == [];
    match host.addChild(graphCalls, position, name)
    case None =>
    case Some(node) =>
      var log2 := log1 + [ProcessDataPopulated(node, name, data)];
      AddChildCountAppend(log1, [ProcessDataPopulated(node, name, data)]);
      assert [ProcessDataPopulated(node, name, data)][..0] == [];
      AddChildCountAppend(log2, [AddAttributeDataNode(node, name, data)]);
      assert [AddAttributeDataNode(node, name, data)][..0] == [];
      assert log2[..|graphCalls|] == graphCalls;
      assert (log2 + [AddAttributeDataNode(node, name, data)])[..|graphCalls|] == graphCalls;
  }

  // ---------------------------------------------------------------------------
  // Reference: what the loops of ImportSkinWeights see
  // ---------------------------------------------------------------------------

  /**
    A reference to bone `b` of `mesh` (the scene's mesh `meshIndex`) with the mesh's vertex
    count, if the bone carries weights.
   */
  ghost function WeightedBone(meshIndex: nat, mesh: Mesh, b: nat): (w: seq<(BoneRef, nat)>)
    requires b < |mesh.bones|
    ensures |w| <= 1
  {
    if |mesh.bones[b].weights| > 0 then [(BoneRef(meshIndex, b), mesh.numVertices)] else []
  }

  /** The weighted bones among the first `b` of `mesh`, in bone order. */
  ghost function WeightedBones(meshIndex: nat, mesh: Mesh, b: nat): seq<(BoneRef, nat)>
    requires b <= |mesh.bones|
  {
    if b == 0 then [] else WeightedBones(meshIndex, mesh, b - 1) + WeightedBone(meshIndex, mesh, b - 1)
  }

  /** The weighted bones of the first `m` meshes of `node`, mesh by mesh. */
  ghost function NodeWeightedBones(scene: SourceScene, node: SourceNode, m: nat): seq<(BoneRef, nat)>
    requires MeshesResolve(scene, node) && m <= |node.meshes|
  {
    if m == 0 then []
    else
      var mesh := scene.meshes[node.meshes[m - 1]];
      NodeWeightedBones(scene, node, m - 1) + WeightedBones(node.meshes[m - 1], mesh, |mesh.bones|)
  }

  /**
    Every reference in `bones` points at a bone of `scene` that carries weights, paired
    with the vertex count of the bone's mesh.
   */
  ghost predicate WeightedBonesOf(scene: SourceScene, bones: seq<(BoneRef, nat)>) {
    forall k | 0 <= k < |bones| ::
      && Resolves(scene, bones[k].0)
      && |BoneAt(scene, bones[k].0).weights| > 0
      && bones[k].1 == scene.meshes[bones[k].0.mesh].numVertices
  }

  lemma WeightedBonesOfAppend(scene: SourceScene, a: seq<(BoneRef, nat)>, b: seq<(BoneRef, nat)>)
    requires WeightedBonesOf(scene, a) && WeightedBonesOf(scene, b)
    ensures WeightedBonesOf(scene, a + b)
  {
    forall k | |a| <= k < |a + b| ensures (a + b)[k] == b[k - |a|] {
    }
  }

  /** The bone loop over the scene's mesh `meshIndex` queues references to weighted bones of that mesh. */
  lemma {:induction false} MeshWeightedBonesOf(scene: SourceScene, meshIndex: nat, b: nat)
    requires meshIndex < |scene.meshes| && b <= |scene.meshes[meshIndex].bones|
    ensures WeightedBonesOf(scene, WeightedBones(meshIndex, scene.meshes[meshIndex], b))
    decreases b
  {
    if b > 0 {
      var mesh := scene.meshes[meshIndex];
      MeshWeightedBonesOf(scene, meshIndex, b - 1);
      WeightedBonesOfAppend(scene, WeightedBones(meshIndex, mesh, b - 1), WeightedBone(meshIndex, mesh, b - 1));
    }
  }

  /** Every reference a node's import queues points at a weighted bone of the scene, with its mesh's vertex count. */
  lemma {:induction false} NodeWeightedBonesOf(scene: SourceScene, node: SourceNode, m: nat)
    requires MeshesResolve(scene, node) && m <= |node.meshes|
    ensures WeightedBonesOf(scene, NodeWeightedBones(scene, node, m))
    decreases m
  {
    if m > 0 {
      var mesh := scene.meshes[node.meshes[m - 1]];
      NodeWeightedBonesOf(scene, node, m - 1);
      MeshWeightedBonesOf(scene, node.meshes[m - 1], |mesh.bones|);
      WeightedBonesOfAppend(scene, NodeWeightedBones(scene, node, m - 1),
                            WeightedBones(node.meshes[m - 1], mesh, |mesh.bones|));
    }
  }

  /** Pending records for `bones`, with data objects numbered from `first`. */
  ghost function Enqueued(bones: seq<(BoneRef, nat)>, first: nat): seq<Pending> {
    seq(|bones|, i requires 0 <= i < |bones| => Pending(bones[i].0, bones[i].1, first + i))
  }

  /** Number of `AddChild` calls in a graph log, i.e. attribute nodes the importer tried to create. */
  ghost function AddChildCount(log: seq<HostCall>): nat {
    if log == [] then 0
    else AddChildCount(log[..|log| - 1]) + (if log[|log| - 1].AddChild? then 1 else 0)
  }

  lemma {:induction false} AddChildCountAppend(a: seq<HostCall>, b: seq<HostCall>)
    ensures AddChildCount(a + b) == AddChildCount(a) + AddChildCount(b)
    decreases |b|
  {
    if b == [] {
      assert a + b == a;
    } else {
      assert (a + b)[..|a + b| - 1] == a + b[..|b| - 1];
      AddChildCountAppend(a, b[..|b| - 1]);
    }
  }

  /** A prefix of a prefix is a prefix. */
  lemma PrefixTransitive<T>(a: seq<T>, b: seq<T>, c: seq<T>)
    requires |b| >= |a| && b[..|a|] == a
    requires |c| >= |b| && c[..|b|] == b
    ensures |c| >= |a| && c[..|a|] == a
  {
    assert c[..|a|] == c[..|b|][..|a|];
  }

  lemma AppendAssociative<T>(a: seq<T>, b: seq<T>, c: seq<T>)
    ensures (a + b) + c == a + (b + c)
  {
  }

  lemma QueueUnchanged(q: seq<Pending>, first: nat)
    ensures q + Enqueued([], first) == q
  {
    assert Enqueued([], first) == [];
  }

  /** Queuing the records for `b` after those for `a` numbers them as one run. */
  lemma EnqueuedAppend(a: seq<(BoneRef, nat)>, b: seq<(BoneRef, nat)>, first: nat)
    ensures Enqueued(a + b, first) == Enqueued(a, first) + Enqueued(b, first + |a|)
  {
    var l := Enqueued(a + b, first);
    var r := Enqueued(a, first) + Enqueued(b, first + |a|);
    assert |l| == |r|;
    forall i | 0 <= i < |l| ensures l[i] == r[i] {
      if i >= |a| {
        assert (a + b)[i] == b[i - |a|];
      }
    }
  }

  /** Fresh handles are pairwise distinct. */
  lemma FreshHandlesDistinct(imp: Importer)
    requires FreshHandles(imp)
    ensures forall a, b | 0 <= a < b < |imp.pending| :: imp.pending[a].data != imp.pending[b].data
  {
  }

  /** Appending freshly numbered records to a queue of fresh handles keeps the handles fresh. */
  lemma EnqueuedKeepsFreshHandles(imp: Importer, added: seq<(BoneRef, nat)>)
    requires FreshHandles(imp)
    ensures FreshHandles(Importer(imp.pending + Enqueued(added, imp.nextData), imp.nextData + |added|))
  {
    var q := imp.pending + Enqueued(added, imp.nextData);
    forall i | |imp.pending| <= i < |q| ensures q[i].data == imp.nextData + (i - |imp.pending|) {
    }
  }

  // ---------------------------------------------------------------------------
  // The loops of ImportSkinWeights
  // ---------------------------------------------------------------------------

  /**
    The loop invariant of `ImportSkinWeights`: starting from importer `imp` and graph log
    `graphCalls`, the state `st` is what the bones `added` (the weighted ones seen so far,
    in order) produce. One record per weighted bone is queued with a fresh data object,
    one result per weighted bone is combined, the graph log only grew, and by exactly one
    `AddChild` per weighted bone; while no bone had weights, nothing changed.
   */
  ghost predicate Imported(imp: Importer, graphCalls: seq<HostCall>, st: ImportState, added: seq<(BoneRef, nat)>) {
    && st.importer == Importer(imp.pending + Enqueued(added, imp.nextData), imp.nextData + |added|)
    && |st.combined| == |added|
    && |st.graphCalls| >= |graphCalls| && st.graphCalls[..|graphCalls|] == graphCalls
    && AddChildCount(st.graphCalls) == AddChildCount(graphCalls) + |added|
    && (added == [] ==> st == ImportState(imp, graphCalls, []))
  }

  lemma ImportedStart(imp: Importer, graphCalls: seq<HostCall>)
    ensures Imported(imp, graphCalls, ImportState(imp, graphCalls, []), [])
  {
    QueueUnchanged(imp.pending, imp.nextData);
  }

  /** One iteration of the bone loop keeps the invariant, with the bone appended if it is weighted. */
  lemma ImportBoneStep(host: SceneHost, position: NodeIndex, meshIndex: nat, mesh: Mesh, b: nat,
                       imp: Importer, graphCalls: seq<HostCall>, st: ImportState, added: seq<(BoneRef, nat)>)
    requires b < |mesh.bones| && Imported(imp, graphCalls, st, added)
    ensures Imported(imp, graphCalls, ImportBone(host, position, meshIndex, mesh, b, st),
                     added + WeightedBone(meshIndex, mesh, b))
  {
    var st' := ImportBone(host, position, meshIndex, mesh, b, st);
    ImportBoneAddsChild(host, position, meshIndex, mesh, b, st);
    if |mesh.bones[b].weights| > 0 {
      var x := (BoneRef(meshIndex, b), mesh.numVertices);
      assert WeightedBone(meshIndex, mesh, b) == [x];
      assert Enqueued(added + [x], imp.nextData) == Enqueued(added, imp.nextData) + [Pending(x.0, x.1, imp.nextData + |added|)];
      AppendAssociative(imp.pending, Enqueued(added, imp.nextData), [Pending(x.0, x.1, imp.nextData + |added|)]);
      assert st'.graphCalls[..|graphCalls|] == st'.graphCalls[..|st.graphCalls|][..|graphCalls|];
    } else {
      assert added + WeightedBone(meshIndex, mesh, b) == added;
    }
  }

  /** Result, importer and graph log after `ImportSkinWeights`. */
  datatype NodeImport = NodeImport(result: ProcessingResult, importer: Importer, graphCalls: seq<HostCall>)

  /**
    `ImportSkinWeights` for the source node `node` appended at graph position `position`:
    for every mesh of the node, in order, every bone of the mesh, in order, is imported.
   */
  method ImportSkinWeights(host: SceneHost, scene: SourceScene, node: SourceNode, position: NodeIndex,
                           imp: Importer, graphCalls: seq<HostCall>) returns (out: NodeImport)
    requires MeshesResolve(scene, node)
    // a node without meshes is ignored and nothing changes
    ensures |node.meshes| == 0 ==> out == NodeImport(Ignored, imp, graphCalls)
    // exactly one record per weighted bone is queued, in mesh then bone order, each with a
    // fresh data object, and exactly one attribute node per weighted bone is attempted
    ensures var added := NodeWeightedBones(scene, node, |node.meshes|);
            && out.importer == Importer(imp.pending + Enqueued(added, imp.nextData), imp.nextData + |added|)
            && |out.graphCalls| >= |graphCalls| && out.graphCalls[..|graphCalls|] == graphCalls
            && AddChildCount(out.graphCalls) == AddChildCount(graphCalls) + |added|
            // the result is the combiner's verdict over one result per weighted bone
            && (|node.meshes| > 0 ==>
                  exists combined: seq<ProcessingResult> ::
                    |combined| == |added| && out.result == host.combinedResult(combined))
            // with meshes but no weighted bone, nothing changes and the combiner saw nothing
            && (|node.meshes| > 0 && added == [] ==> out == NodeImport(host.combinedResult([]), imp, graphCalls))
    ensures FreshHandles(imp) ==> FreshHandles(out.importer)
  {
    if |node.meshes| == 0 {
      QueueUnchanged(imp.pending, imp.nextData);
      return NodeImport(Ignored, imp, graphCalls);
    }
    var st := ImportNodeMeshes(host, scene, node, position, imp, graphCalls);
    out := NodeImport(host.combinedResult(st.combined), st.importer, st.graphCalls);
    ImportedNode(host, imp, graphCalls, st, NodeWeightedBones(scene, node, |node.meshes|));
  }

  /** The mesh loop of `ImportSkinWeights`: every mesh of the node, in order, through the bone loop. */
  method ImportNodeMeshes(host: SceneHost, scene: SourceScene, node: SourceNode, position: NodeIndex,
                          imp: Importer, graphCalls: seq<HostCall>) returns (st: ImportState)
    requires MeshesResolve(scene, node)
    ensures Imported(imp, graphCalls, st, NodeWeightedBones(scene, node, |node.meshes|))
  {
    st := ImportState(imp, graphCalls, []);
    ImportedStart(imp, graphCalls);
    var m := 0;
    while m < |node.meshes|
      invariant m <= |node.meshes|
      invariant Imported(imp, graphCalls, st, NodeWeightedBones(scene, node, m))
    {
      st := ImportMeshBones(host, position, node.meshes[m], scene.meshes[node.meshes[m]], imp, graphCalls, st,
                            NodeWeightedBones(scene, node, m));
      m := m + 1;
    }
  }

  /** The bone loop of `ImportSkinWeights` over every bone of `mesh`, in order. */
  method ImportMeshBones(host: SceneHost, position: NodeIndex, meshIndex: nat, mesh: Mesh, imp: Importer,
                         graphCalls: seq<HostCall>, st0: ImportState, ghost seen: seq<(BoneRef, nat)>) returns (st: ImportState)
    requires Imported(imp, graphCalls, st0, seen)
    ensures Imported(imp, graphCalls, st, seen + WeightedBones(meshIndex, mesh, |mesh.bones|))
  {
    st := st0;
    assert seen + WeightedBones(meshIndex, mesh, 0) == seen;
    var b := 0;
    while b < |mesh.bones|
      invariant b <= |mesh.bones|
      invariant Imported(imp, graphCalls, st, seen + WeightedBones(meshIndex, mesh, b))
    {
      ImportBoneStep(host, position, meshIndex, mesh, b, imp, graphCalls, st, seen + WeightedBones(meshIndex, mesh, b));
      AppendAssociative(seen, WeightedBones(meshIndex, mesh, b), WeightedBone(meshIndex, mesh, b));
      st := ImportBone(host, position, meshIndex, mesh, b, st);
      b := b + 1;
    }
  }

  /** What the invariant says once every mesh was seen, about the node's outcome. */
  lemma ImportedNode(host: SceneHost, imp: Importer, graphCalls: seq<HostCall>, st: ImportState,
                     added: seq<(BoneRef, nat)>)
    requires Imported(imp, graphCalls, st, added)
    ensures var out := NodeImport(host.combinedResult(st.combined), st.importer, st.graphCalls);
            && out.importer == Importer(imp.pending + Enqueued(added, imp.nextData), imp.nextData + |added|)
            && |out.graphCalls| >= |graphCalls| && out.graphCalls[..|graphCalls|] == graphCalls
            && AddChildCount(out.graphCalls) == AddChildCount(graphCalls) + |added|
            && (exists combined: seq<ProcessingResult> ::
                  |combined| == |added| && out.result == host.combinedResult(combined))
            && (added == [] ==> out == NodeImport(host.combinedResult([]), imp, graphCalls))
            && (FreshHandles(imp) ==> FreshHandles(out.importer))
  {
    assert |st.combined| == |added|;
    if FreshHandles(imp) {
      EnqueuedKeepsFreshHandles(imp, added);
    }
  }
}
