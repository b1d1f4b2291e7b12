/**
  The skin-weights importer over a whole scene. The importer is bound to two calls of the
  scene builder: `ImportSkinWeights` runs on every node as it is appended to the scene
  graph, and `SetupNamedBoneLinks` runs once when the scene is finalised. One importer
  object, and so one pending queue, serves the whole scene. The pending records hold
  references into the source scene, which finalisation reads as it then stands: the
  bones are where they were, but their names and weights may have been updated.
 */
module SkinWeightsLifecycle {
  import opened SkinWeights
  import opened SkinWeightsLinks

  /** A node appended to the scene graph: the source node and the graph position it was given. */
  datatype Appended = Appended(node: SourceNode, position: NodeIndex)

  predicate AllResolve(scene: SourceScene, appended: seq<Appended>) {
    forall i | 0 <= i < |appended| :: MeshesResolve(scene, appended[i].node)
  }

  /** The weighted bones of the first `n` appended nodes, node by node. */
  ghost function SceneWeightedBones(scene: SourceScene, appended: seq<Appended>, n: nat): seq<(BoneRef, nat)>
    requires AllResolve(scene, appended) && n <= |appended|
  {
    if n == 0 then []
    else
      var node := appended[n - 1].node;
      SceneWeightedBones(scene, appended, n - 1) + NodeWeightedBones(scene, node, |node.meshes|)
  }

  /** The queue and data-object counter after the bones `added` were imported after `imp`. */
  ghost function AfterImport(imp: Importer, added: seq<(BoneRef, nat)>): Importer {
    Importer(imp.pending + Enqueued(added, imp.nextData), imp.nextData + |added|)
  }

  /** Every appended node's import queues references to weighted bones of the scene. */
  lemma {:induction false} SceneWeightedBonesOf(scene: SourceScene, appended: seq<Appended>, n: nat)
    requires AllResolve(scene, appended) && n <= |appended|
    ensures WeightedBonesOf(scene, SceneWeightedBones(scene, appended, n))
    decreases n
  {
    if n > 0 {
      var node := appended[n - 1].node;
      SceneWeightedBonesOf(scene, appended, n - 1);
      NodeWeightedBonesOf(scene, node, |node.meshes|);
      WeightedBonesOfAppend(scene, SceneWeightedBones(scene, appended, n - 1), NodeWeightedBones(scene, node, |node.meshes|));
    }
  }

  /** Every reference in `bones` points at a bone of `scene`. */
  ghost predicate BonesResolve(scene: SourceScene, bones: seq<(BoneRef, nat)>) {
    forall k | 0 <= k < |bones| :: Resolves(scene, bones[k].0)
  }

  /** References to bones of `scene` still point at bones of a scene with the same layout. */
  lemma SameLayoutResolves(scene: SourceScene, later: SourceScene, bones: seq<(BoneRef, nat)>)
    requires WeightedBonesOf(scene, bones) && SameLayout(scene, later)
    ensures BonesResolve(later, bones)
  {
    forall k | 0 <= k < |bones| ensures Resolves(later, bones[k].0) {
      assert Resolves(scene, bones[k].0);
    }
  }

  /** The queue after importing holds only references that point at bones. */
  lemma AfterImportResolves(imp: Importer, added: seq<(BoneRef, nat)>, scene: SourceScene)
    requires QueueResolves(scene, imp.pending) && BonesResolve(scene, added)
    ensures QueueResolves(scene, AfterImport(imp, added).pending)
  {
    var q := AfterImport(imp, added).pending;
    forall i | |imp.pending| <= i < |q| ensures q[i].bone == added[i - |imp.pending|].0 {
    }
  }

  /** Importing the bones `b` after the bones `a` is importing `a + b`. */
  lemma AfterImportConcat(imp: Importer, a: seq<(BoneRef, nat)>, b: seq<(BoneRef, nat)>)
    ensures AfterImport(AfterImport(imp, a), b) == AfterImport(imp, a + b)
  {
    EnqueuedAppend(a, b, imp.nextData);
    AppendAssociative(imp.pending, Enqueued(a, imp.nextData), Enqueued(b, imp.nextData + |a|));
  }

  /** Importing node `i` after the first `i` nodes is importing the first `i + 1`. */
  lemma SceneStep(scene: SourceScene, appended: seq<Appended>, i: nat, imp: Importer, current: Importer, next: Importer)
    requires AllResolve(scene, appended) && i < |appended|
    requires current == AfterImport(imp, SceneWeightedBones(scene, appended, i))
    requires var node := appended[i].node;
             next == Importer(current.pending + Enqueued(NodeWeightedBones(scene, node, |node.meshes|), current.nextData),
                              current.nextData + |NodeWeightedBones(scene, node, |node.meshes|)|)
    ensures next == AfterImport(imp, SceneWeightedBones(scene, appended, i + 1))
  {
    var node := appended[i].node;
    AfterImportConcat(imp, SceneWeightedBones(scene, appended, i), NodeWeightedBones(scene, node, |node.meshes|));
  }

  /**
    Both phases over one scene: `ImportSkinWeights` on each appended node of `scene` in
    order, on one importer and one graph, then `SetupNamedBoneLinks` on the scene as it
    stands at finalisation, `final`. Returns each node's result and the finalisation.
    `boneIdOf` stands for `SkinWeightData::GetBoneId`.
   */
  method ImportScene(host: SceneHost, scene: SourceScene, appended: seq<Appended>, imp: Importer,
                     graphCalls: seq<HostCall>, final: SourceScene, boneIdOf: (DataId, string) -> int)
    returns (results: seq<ProcessingResult>, out: Finalized)
    requires AllResolve(scene, appended) && FreshHandles(imp)
    requires SameLayout(scene, final) && QueueResolves(final, imp.pending)
    ensures |results| == |appended|
    ensures forall i | 0 <= i < |appended| :: |appended[i].node.meshes| == 0 ==> results[i] == Ignored
    ensures var added := SceneWeightedBones(scene, appended, |appended|);
            // each queued reference points at a weighted bone of the scene, with its mesh's vertex count
            && WeightedBonesOf(scene, added)
            // finalisation succeeds exactly when something was queued, before or during the
            // scene, and is Ignored exactly when nothing was
            && (out.result == Success <==> imp.pending != [] || added != [])
            && (out.result == Ignored <==> imp.pending == [] && added == [])
            && out.importer == Importer([], imp.nextData + |added|)
            // no data object outside the queue receives a call
            && (forall d: DataId | Untouched(imp, added, d) :: OpsOn(out.dataOps, d) == [])
            // records queued before the scene get their calls
            && (forall i | 0 <= i < |imp.pending| ::
                  OpsOn(out.dataOps, imp.pending[i].data) == ObjectCalls(final, imp.pending[i], boneIdOf))
            // the data object of the k-th weighted bone of the scene gets exactly the calls
            // for that bone as `final` holds it
            && (forall k | 0 <= k < |added| ::
                  && Resolves(final, added[k].0)
                  && OpsOn(out.dataOps, imp.nextData + k)
                       == ObjectCalls(final, Pending(added[k].0, added[k].1, imp.nextData + k), boneIdOf))
  {
    var importer, log;
    results, importer, log := ImportNodes(host, scene, appended, imp, graphCalls);
    ghost var added := SceneWeightedBones(scene, appended, |appended|);
    SceneWeightedBonesOf(scene, appended, |appended|);
    SameLayoutResolves(scene, final, added);
    AfterImportResolves(imp, added, final);
    out := SetupNamedBoneLinks(importer, final, boneIdOf);
    DrainAfterImport(imp, added, final, boneIdOf);
  }

  /**
    Phase one over the scene: `ImportSkinWeights` on each appended node in order, threading
    one importer and one graph log. The queue gains the nodes' weighted bones in node order.
   */
  method ImportNodes(host: SceneHost, scene: SourceScene, appended: seq<Appended>, imp: Importer,
                     graphCalls: seq<HostCall>)
    returns (results: seq<ProcessingResult>, importer: Importer, log: seq<HostCall>)
    requires AllResolve(scene, appended)
    ensures |results| == |appended|
    ensures forall i | 0 <= i < |appended| :: |appended[i].node.meshes| == 0 ==> results[i] == Ignored
    ensures importer == AfterImport(imp, SceneWeightedBones(scene, appended, |appended|))
    ensures |log| >= |graphCalls| && log[..|graphCalls|] == graphCalls
  {
    importer, log := imp, graphCalls;
    results := [];
    QueueUnchanged(imp.pending, imp.nextData);
    var i := 0;
    while i < |appended|
      invariant i <= |appended| && |results| == i
      invariant forall j | 0 <= j < i :: |appended[j].node.meshes| == 0 ==> results[j] == Ignored
      invariant importer == AfterImport(imp, SceneWeightedBones(scene, appended, i))
      invariant |log| >= |graphCalls| && log[..|graphCalls|] == graphCalls
    {
      var imported := ImportSkinWeights(host, scene, appended[i].node, appended[i].position, importer, log);
      SceneStep(scene, appended, i, imp, importer, imported.importer);
      PrefixTransitive(graphCalls, log, imported.graphCalls);
      IgnoredStep(appended, results, imported.result);
      results := results + [imported.result];
      importer, log := imported.importer, imported.graphCalls;
      i := i + 1;
    }
  }

  /**
    Draining the queue after the bones `added` were imported: Success exactly when the
    queue holds something, every earlier record gets its calls, and the data object of
    the k-th added bone gets exactly that bone's calls.
   */
  lemma DrainAfterImport(imp: Importer, added: seq<(BoneRef, nat)>, final: SourceScene,
                         boneIdOf: (DataId, string) -> int)
    requires FreshHandles(imp) && QueueResolves(final, imp.pending) && BonesResolve(final, added)
    ensures QueueResolves(final, AfterImport(imp, added).pending)
    ensures var out := SetupNamedBoneLinks(AfterImport(imp, added), final, boneIdOf);
            && (out.result == Success <==> imp.pending != [] || added != [])
            && (out.result == Ignored <==> imp.pending == [] && added == [])
            && out.importer == Importer([], imp.nextData + |added|)
            && (forall d: DataId | Untouched(imp, added, d) :: OpsOn(out.dataOps, d) == [])
            && (forall i | 0 <= i < |imp.pending| ::
                  OpsOn(out.dataOps, imp.pending[i].data) == ObjectCalls(final, imp.pending[i], boneIdOf))
            && (forall k | 0 <= k < |added| ::
                  OpsOn(out.dataOps, imp.nextData + k)
                    == ObjectCalls(final, Pending(added[k].0, added[k].1, imp.nextData + k), boneIdOf))
  {
    AfterImportResolves(imp, added, final);
    forall i | 0 <= i < |imp.pending|
      ensures OpsOn(LinkOps(final, AfterImport(imp, added).pending, boneIdOf), imp.pending[i].data)
                == ObjectCalls(final, imp.pending[i], boneIdOf)
    {
      DrainEarlierRecord(imp, added, final, boneIdOf, i);
    }
    forall k | 0 <= k < |added|
      ensures OpsOn(LinkOps(final, AfterImport(imp, added).pending, boneIdOf), imp.nextData + k)
                == ObjectCalls(final, Pending(added[k].0, added[k].1, imp.nextData + k), boneIdOf)
    {
      DrainAddedRecord(imp, added, final, boneIdOf, k);
    }
    forall d: DataId | Untouched(imp, added, d)
      ensures OpsOn(LinkOps(final, AfterImport(imp, added).pending, boneIdOf), d) == []
    {
      DrainUntouched(imp, added, final, boneIdOf, d);
    }
  }

  /**
    `d` is neither queued before the import nor one of the objects created for the bones
    `added`, numbered from `imp.nextData`.
   */
  ghost predicate Untouched(imp: Importer, added: seq<(BoneRef, nat)>, d: DataId) {
    && (forall i | 0 <= i < |imp.pending| :: imp.pending[i].data != d)
    && !(imp.nextData <= d < imp.nextData + |added|)
  }

  /** A data object that was never queued receives no call. */
  lemma DrainUntouched(imp: Importer, added: seq<(BoneRef, nat)>, final: SourceScene,
                       boneIdOf: (DataId, string) -> int, d: DataId)
    requires QueueResolves(final, AfterImport(imp, added).pending) && Untouched(imp, added, d)
    ensures OpsOn(LinkOps(final, AfterImport(imp, added).pending, boneIdOf), d) == []
  {
    var q := AfterImport(imp, added).pending;
    forall i | 0 <= i < |q| ensures q[i].data != d {
      if i >= |imp.pending| {
        assert q[i] == Enqueued(added, imp.nextData)[i - |imp.pending|];
      }
    }
    LinkOpsTargets(final, q, boneIdOf, d);
  }

  lemma DrainEarlierRecord(imp: Importer, added: seq<(BoneRef, nat)>, final: SourceScene,
                           boneIdOf: (DataId, string) -> int, i: nat)
    requires FreshHandles(imp) && i < |imp.pending|
    requires QueueResolves(final, AfterImport(imp, added).pending)
    requires Resolves(final, imp.pending[i].bone)
    ensures OpsOn(LinkOps(final, AfterImport(imp, added).pending, boneIdOf), imp.pending[i].data)
              == ObjectCalls(final, imp.pending[i], boneIdOf)
  {
    var q := AfterImport(imp, added).pending;
    AfterImportDistinct(imp, added);
    assert q[i] == imp.pending[i];
    LinkOpsPerObject(final, q, boneIdOf, i);
  }

  lemma DrainAddedRecord(imp: Importer, added: seq<(BoneRef, nat)>, final: SourceScene,
                         boneIdOf: (DataId, string) -> int, k: nat)
    requires FreshHandles(imp) && k < |added|
    requires QueueResolves(final, AfterImport(imp, added).pending)
    requires Resolves(final, added[k].0)
    ensures OpsOn(LinkOps(final, AfterImport(imp, added).pending, boneIdOf), imp.nextData + k)
              == ObjectCalls(final, Pending(added[k].0, added[k].1, imp.nextData + k), boneIdOf)
  {
    var q := AfterImport(imp, added).pending;
    var j := |imp.pending| + k;
    var p := Pending(added[k].0, added[k].1, imp.nextData + k);
    AfterImportDistinct(imp, added);
    assert Enqueued(added, imp.nextData)[k] == p;
    assert q[j] == p;
    LinkOpsPerObject(final, q, boneIdOf, j);
  }

  /** The queue after importing holds pairwise distinct data objects. */
  lemma AfterImportDistinct(imp: Importer, added: seq<(BoneRef, nat)>)
    requires FreshHandles(imp)
    ensures var q := AfterImport(imp, added).pending;
            forall a, b | 0 <= a < b < |q| :: q[a].data != q[b].data
  {
    EnqueuedKeepsFreshHandles(imp, added);
    FreshHandlesDistinct(AfterImport(imp, added));
  }

  /** Appending the next node's result keeps "a node without meshes is Ignored". */
  lemma IgnoredStep(appended: seq<Appended>, results: seq<ProcessingResult>, r: ProcessingResult)
    requires |results| < |appended|
    requires forall j | 0 <= j < |results| :: |appended[j].node.meshes| == 0 ==> results[j] == Ignored
    requires |appended[|results|].node.meshes| == 0 ==> r == Ignored
    ensures forall j | 0 <= j < |results| + 1 :: |appended[j].node.meshes| == 0 ==> (results + [r])[j] == Ignored
  {
  }
}
