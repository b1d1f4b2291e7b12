/**
  Phase two of the skin-weights importer: when the scene is finalised, the pending queue
  is drained. Every queued data object is sized to its mesh's vertex count, looks its
  bone's id up once, and receives one link per bone weight. The bone is read through the
  queued reference, so `scene` is the source scene as it stands at finalisation. The data
  objects are represented by the log of calls made on them.
 */
module SkinWeightsLinks {
  import opened SkinWeights

  // ---------------------------------------------------------------------------
  // SetupNamedBoneLinks
  // ---------------------------------------------------------------------------

  /** `ISkinWeightData::Link`. */
  datatype Link = Link(boneId: int, weight: real)

  /** A call made on a `SkinWeightData` object. */
  datatype DataCall =
    | ResizeContainerSpace(size: nat)
    | GetBoneId(boneName: string)
    | AppendLink(vertexId: nat, link: Link)

  /** A call together with the data object it is made on. */
  datatype DataOp = DataOp(target: DataId, call: DataCall)

  /** Result, importer and data-object calls after `SetupNamedBoneLinks`. */
  datatype Finalized = Finalized(result: ProcessingResult, importer: Importer, dataOps: seq<DataOp>)

  /** The inner loop: one `AppendLink` per weight, in weight order, all carrying `boneId`. */
  function WeightOps(data: DataId, boneId: int, weights: seq<VertexWeight>): (ops: seq<DataOp>)
    ensures |ops| == |weights|
    ensures forall k | 0 <= k < |weights| ::
              ops[k] == DataOp(data, AppendLink(weights[k].vertexId, Link(boneId, weights[k].weight)))
    decreases |weights|
  {
    if weights == [] then []
    else
      var last := weights[|weights| - 1];
      WeightOps(data, boneId, weights[..|weights| - 1])
        + [DataOp(data, AppendLink(last.vertexId, Link(boneId, last.weight)))]
  }

  /**
    The body of the outer loop for one record: size the container, read the bone through
    its reference, look its id up once by its current name (`boneIdOf` stands for
    `SkinWeightData::GetBoneId`), then append the links for its current weights.
   */
  function RecordOps(scene: SourceScene, p: Pending, boneIdOf: (DataId, string) -> int): (ops: seq<DataOp>)
    requires Resolves(scene, p.bone)
    ensures var bone := BoneAt(scene, p.bone);
            && |ops| == 2 + |bone.weights|
            && (forall k | 0 <= k < |ops| :: ops[k].target == p.data)
            && ops[0].call == ResizeContainerSpace(p.numVertices)
            && ops[1].call == GetBoneId(bone.name)
            && (forall k | 0 <= k < |bone.weights| ::
                  ops[2 + k].call == AppendLink(bone.weights[k].vertexId,
                                                Link(boneIdOf(p.data, bone.name), bone.weights[k].weight)))
  {
    var bone := BoneAt(scene, p.bone);
    [DataOp(p.data, ResizeContainerSpace(p.numVertices)), DataOp(p.data, GetBoneId(bone.name))]
      + WeightOps(p.data, boneIdOf(p.data, bone.name), bone.weights)
  }

  /** The outer loop over the queue, in queue order. */
  function LinkOps(scene: SourceScene, queue: seq<Pending>, boneIdOf: (DataId, string) -> int): seq<DataOp>
    requires QueueResolves(scene, queue)
    decreases |queue|
  {
    if queue == [] then []
    else LinkOps(scene, queue[..|queue| - 1], boneIdOf) + RecordOps(scene, queue[|queue| - 1], boneIdOf)
  }

  /**
    `SetupNamedBoneLinks`: drains the queue. Ignored if it was empty, Success otherwise;
    the queue is empty afterwards and nothing else of the importer changes. Every queued
    reference must still point at a bone, since the source dereferences it.
   */
  function SetupNamedBoneLinks(imp: Importer, scene: SourceScene, boneIdOf: (DataId, string) -> int): (out: Finalized)
    requires QueueResolves(scene, imp.pending)
    ensures out.result == Ignored <==> imp.pending == []
    ensures out.result == Success <==> imp.pending != []
    ensures out.importer == Importer([], imp.nextData)
    ensures FreshHandles(out.importer)
    ensures imp.pending == [] ==> out.dataOps == []
  {
    var ops := LinkOps(scene, imp.pending, boneIdOf);
    var result := if imp.pending == [] then Ignored else Success;
    Finalized(result, imp.(pending := []), ops)
  }

  // ---------------------------------------------------------------------------
  // Reference: the calls each data object must receive
  // ---------------------------------------------------------------------------

  /** The calls made on data object `d`, in order. */
  ghost function OpsOn(ops: seq<DataOp>, d: DataId): seq<DataCall> {
    if ops == [] then []
    else OpsOn(ops[..|ops| - 1], d) + (if ops[|ops| - 1].target == d then [ops[|ops| - 1].call] else [])
  }

  /**
    Reference: the calls a record's data object must receive. It is sized to the mesh's
    vertex count, the bone id is looked up once by the name the referenced bone has in
    `scene`, then one link per weight the bone has in `scene`, in weight order, each
    carrying that id and the weight at the weight's vertex.
   */
  ghost function ObjectCalls(scene: SourceScene, p: Pending, boneIdOf: (DataId, string) -> int): seq<DataCall>
    requires Resolves(scene, p.bone)
  {
    var bone := BoneAt(scene, p.bone);
    [ResizeContainerSpace(p.numVertices), GetBoneId(bone.name)]
      + LinkCalls(bone.weights, boneIdOf(p.data, bone.name))
  }

  /** Reference: one link per weight, in weight order, at the weight's vertex. */
  ghost function LinkCalls(weights: seq<VertexWeight>, boneId: int): seq<DataCall> {
    seq(|weights|, k requires 0 <= k < |weights| =>
          AppendLink(weights[k].vertexId, Link(boneId, weights[k].weight)))
  }

  lemma {:induction false} OpsOnAppend(a: seq<DataOp>, b: seq<DataOp>, d: DataId)
    ensures OpsOn(a + b, d) == OpsOn(a, d) + OpsOn(b, d)
    decreases |b|
  {
    if b == [] {
      assert a + b == a;
    } else {
      assert (a + b)[..|a + b| - 1] == a + b[..|b| - 1];
      OpsOnAppend(a, b[..|b| - 1], d);
    }
  }

  /** Calls on one data object: all of them, or none of them. */
  lemma {:induction false} OpsOnUniform(ops: seq<DataOp>, d: DataId, target: DataId)
    requires forall k | 0 <= k < |ops| :: ops[k].target == target
    ensures d != target ==> OpsOn(ops, d) == []
    ensures d == target ==> OpsOn(ops, d) == seq(|ops|, k requires 0 <= k < |ops| => ops[k].call)
    decreases |ops|
  {
    if ops != [] {
      OpsOnUniform(ops[..|ops| - 1], d, target);
    }
  }

  /** Draining the queue `p + q` makes the calls for `p`, then those for `q`. */
  lemma {:induction false} LinkOpsInQueueOrder(scene: SourceScene, p: seq<Pending>, q: seq<Pending>,
                                               boneIdOf: (DataId, string) -> int)
    requires QueueResolves(scene, p) && QueueResolves(scene, q)
    ensures QueueResolves(scene, p + q)
    ensures LinkOps(scene, p + q, boneIdOf) == LinkOps(scene, p, boneIdOf) + LinkOps(scene, q, boneIdOf)
    decreases |q|
  {
    if q == [] {
      assert p + q == p;
    } else {
      var init, last := q[..|q| - 1], q[|q| - 1];
      assert q == init + [last];
      AppendAssociative(p, init, [last]);
      var pq := (p + init) + [last];
      assert pq[..|pq| - 1] == p + init;
      LinkOpsInQueueOrder(scene, p, init, boneIdOf);
      AppendAssociative(LinkOps(scene, p, boneIdOf), LinkOps(scene, init, boneIdOf), RecordOps(scene, last, boneIdOf));
    }
  }

  /** Every call made while draining `queue` is made on a data object of the queue. */
  lemma {:induction false} LinkOpsTargets(scene: SourceScene, queue: seq<Pending>, boneIdOf: (DataId, string) -> int,
                                          d: DataId)
    requires QueueResolves(scene, queue)
    requires forall i | 0 <= i < |queue| :: queue[i].data != d
    ensures OpsOn(LinkOps(scene, queue, boneIdOf), d) == []
    decreases |queue|
  {
    if queue != [] {
      var last := queue[|queue| - 1];
      LinkOpsTargets(scene, queue[..|queue| - 1], boneIdOf, d);
      OpsOnAppend(LinkOps(scene, queue[..|queue| - 1], boneIdOf), RecordOps(scene, last, boneIdOf), d);
      OpsOnUniform(RecordOps(scene, last, boneIdOf), d, last.data);
    }
  }

  lemma RecordOpsCalls(scene: SourceScene, p: Pending, boneIdOf: (DataId, string) -> int)
    requires Resolves(scene, p.bone)
    ensures OpsOn(RecordOps(scene, p, boneIdOf), p.data) == ObjectCalls(scene, p, boneIdOf)
  {
    var bone := BoneAt(scene, p.bone);
    var boneId := boneIdOf(p.data, bone.name);
    var resize, lookup := ResizeContainerSpace(p.numVertices), GetBoneId(bone.name);
    var head := [DataOp(p.data, resize), DataOp(p.data, lookup)];
    var tail := WeightOps(p.data, boneId, bone.weights);
    assert RecordOps(scene, p, boneIdOf) == head + tail;
    OpsOnAppend(head, tail, p.data);
    assert head[..1] == [DataOp(p.data, resize)];
    assert OpsOn(head[..1], p.data) == [resize] by {
      assert head[..1][..0] == [];
    }
    assert OpsOn(head, p.data) == [resize, lookup];
    WeightOpsCalls(p.data, boneId, bone.weights);
  }

  /** The links of one record are exactly the reference link calls. */
  lemma WeightOpsCalls(data: DataId, boneId: int, weights: seq<VertexWeight>)
    ensures OpsOn(WeightOps(data, boneId, weights), data) == LinkCalls(weights, boneId)
  {
    var ops := WeightOps(data, boneId, weights);
    OpsOnUniform(ops, data, data);
    var got := seq(|ops|, k requires 0 <= k < |ops| => ops[k].call);
    var want := LinkCalls(weights, boneId);
    assert |got| == |want|;
    forall k | 0 <= k < |got| ensures got[k] == want[k] {
    }
    assert got == want;
  }

  lemma {:induction false} LinkOpsPerObject(scene: SourceScene, queue: seq<Pending>, boneIdOf: (DataId, string) -> int,
                                            i: nat)
    requires QueueResolves(scene, queue)
    requires forall a, b | 0 <= a < b < |queue| :: queue[a].data != queue[b].data
    requires i < |queue|
    ensures OpsOn(LinkOps(scene, queue, boneIdOf), queue[i].data) == ObjectCalls(scene, queue[i], boneIdOf)
    decreases |queue|
  {
    var init := queue[..|queue| - 1];
    var last := queue[|queue| - 1];
    var d := queue[i].data;
    InitResolvesAndDistinct(scene, queue, init);
    OpsOnAppend(LinkOps(scene, init, boneIdOf), RecordOps(scene, last, boneIdOf), d);
    if i == |queue| - 1 {
      LinkOpsTargets(scene, init, boneIdOf, d);
      RecordOpsCalls(scene, last, boneIdOf);
    } else {
      LinkOpsPerObject(scene, init, boneIdOf, i);
      OpsOnUniform(RecordOps(scene, last, boneIdOf), d, last.data);
    }
  }

  /** Dropping the last record keeps the references resolving and the objects distinct from the last one's. */
  lemma InitResolvesAndDistinct(scene: SourceScene, queue: seq<Pending>, init: seq<Pending>)
    requires QueueResolves(scene, queue) && queue != [] && init == queue[..|queue| - 1]
    requires forall a, b | 0 <= a < b < |queue| :: queue[a].data != queue[b].data
    ensures QueueResolves(scene, init)
    ensures forall a, b | 0 <= a < b < |init| :: init[a].data != init[b].data
    ensures forall a | 0 <= a < |init| :: init[a].data != queue[|queue| - 1].data
  {
  }

  /**
    Draining a queue of distinct data objects gives every queued object exactly its
    record's calls (size, one bone-id lookup, one link per weight, all read from the
    scene at finalisation) and touches no other.
   */
  lemma SetupNamedBoneLinksPerObject(imp: Importer, scene: SourceScene, boneIdOf: (DataId, string) -> int)
    requires FreshHandles(imp) && QueueResolves(scene, imp.pending)
    ensures var out := SetupNamedBoneLinks(imp, scene, boneIdOf);
            && (forall i | 0 <= i < |imp.pending| ::
                  OpsOn(out.dataOps, imp.pending[i].data) == ObjectCalls(scene, imp.pending[i], boneIdOf))
            && (forall d: DataId | (forall i | 0 <= i < |imp.pending| :: imp.pending[i].data != d) ::
                  OpsOn(out.dataOps, d) == [])
  {
    forall i | 0 <= i < |imp.pending|
      ensures OpsOn(LinkOps(scene, imp.pending, boneIdOf), imp.pending[i].data)
                == ObjectCalls(scene, imp.pending[i], boneIdOf)
    {
      LinkOpsPerObject(scene, imp.pending, boneIdOf, i);
    }
    forall d: DataId | (forall i | 0 <= i < |imp.pending| :: imp.pending[i].data != d)
      ensures OpsOn(LinkOps(scene, imp.pending, boneIdOf), d) == []
    {
      LinkOpsTargets(scene, imp.pending, boneIdOf, d);
    }
  }

  /** The queue is empty after draining, so an immediate second drain is Ignored and makes no call. */
  lemma SecondSetupIsIgnored(imp: Importer, scene: SourceScene, later: SourceScene,
                             boneIdOf: (DataId, string) -> int, boneIdOf2: (DataId, string) -> int)
    requires QueueResolves(scene, imp.pending)
    ensures var again := SetupNamedBoneLinks(SetupNamedBoneLinks(imp, scene, boneIdOf).importer, later, boneIdOf2);
            again.result == Ignored && again.dataOps == []
  {
  }
}
