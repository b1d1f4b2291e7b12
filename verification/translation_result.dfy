/**
  The output types of the script-canvas graph translator: target flags, the runtime
  inputs a compiled graph needs to start, the per-target translation result, the per-target
  error and translation maps, and the immutable overall result.

  Only the declarations of these types are modelled; the bodies of their query operations
  are not part of this model.
 */
module TranslationResult {

  // ---------------------------------------------------------------------------
  // TargetFlags
  // ---------------------------------------------------------------------------

  /** `TargetFlags`: the output a translation can be asked for. */
  datatype TargetFlag = Lua | Cpp | Hpp

  const AllTargets: set<TargetFlag> := {Lua, Cpp, Hpp}

  /** The enumerator's value: `1 << 0`, `1 << 1`, `1 << 2`. */
  function Bit(t: TargetFlag): (b: bv32)
    ensures b != 0 && b & (b - 1) == 0   // exactly one bit is set
    ensures b & !7 == 0                  // within the three low bits
  {
    match t
    case Lua => 1 << 0
    case Cpp => 1 << 1
    case Hpp => 1 << 2
  }

  /** No two flags share a bit, so the values are distinct. */
  lemma BitsDisjoint(a: TargetFlag, b: TargetFlag)
    requires a != b
    ensures Bit(a) & Bit(b) == 0
    ensures Bit(a) != Bit(b)
  {
  }

  /** The bitmask that requests exactly `targets`. */
  function MaskOf(targets: set<TargetFlag>): (mask: bv32)
    ensures forall t :: (mask & Bit(t) != 0) <==> t in targets
    ensures mask & !7 == 0
  {
    var lua: bv32 := if Lua in targets then 1 else 0;
    var cpp: bv32 := if Cpp in targets then 2 else 0;
    var hpp: bv32 := if Hpp in targets then 4 else 0;
    assert Bit(Lua) == 1 && Bit(Cpp) == 2 && Bit(Hpp) == 4;
    assert (lua | cpp | hpp) & 1 == lua;
    assert (lua | cpp | hpp) & 2 == cpp;
    assert (lua | cpp | hpp) & 4 == hpp;
    lua | cpp | hpp
  }

  /** The targets a bitmask requests. */
  function TargetsOf(mask: bv32): (targets: set<TargetFlag>)
    ensures forall t :: t in targets <==> mask & Bit(t) != 0
  {
    set t | t in AllTargets && mask & Bit(t) != 0
  }

  /** Every set of targets is a valid bitmask and is recovered from it. */
  lemma MaskRoundTrip(targets: set<TargetFlag>)
    ensures TargetsOf(MaskOf(targets)) == targets
  {
  }

  /** Every bitmask within the three flag bits is the mask of the targets it names. */
  lemma TargetsRoundTrip(mask: bv32)
    requires mask & !7 == 0
    ensures MaskOf(TargetsOf(mask)) == mask
  {
    var targets := TargetsOf(mask);
    assert (Lua in targets) == (mask & 1 != 0);
    assert (Cpp in targets) == (mask & 2 != 0);
    assert (Hpp in targets) == (mask & 4 != 0);
  }

  // ---------------------------------------------------------------------------
  // RuntimeInputs
  // ---------------------------------------------------------------------------

  /** `ExecutionMode`; only `Interpreted` is named in the modelled header. */
  datatype ExecutionMode = Interpreted | Compiled

  /** `Grammar::ExecutionCharacteristics`; only `PerEntity` is named in the modelled header. */
  datatype ExecutionCharacteristics = PerEntity | Shared

  /** Opaque handles for values the translator only stores. */
  datatype VariableId = VariableId(uuid: nat)
  datatype NodeableRef = NodeableRef(address: nat)   // a `Nodeable*`
  datatype Datum = Datum(handle: nat)
  datatype EntityId = EntityId(id: nat)
  datatype StaticValue = StaticValue(handle: nat)    // an `AZStd::any`

  /** `RuntimeInputs`: what the host needs to begin executing a compiled graph. */
  datatype RuntimeInputs = RuntimeInputs(
    execution: ExecutionMode,
    executionCharacteristics: ExecutionCharacteristics,
    nodeables: seq<NodeableRef>,
    variables: seq<(VariableId, Datum)>,
    entityIds: seq<(VariableId, EntityId)>,
    staticVariables: seq<(VariableId, StaticValue)>)

  /** The defaulted constructor with the members' initialisers. */
  function DefaultRuntimeInputs(): (r: RuntimeInputs)
    ensures r.execution == Interpreted && r.executionCharacteristics == PerEntity
    ensures |r.nodeables| == 0 && |r.variables| == 0 && |r.entityIds| == 0 && |r.staticVariables| == 0
  {
    RuntimeInputs(Interpreted, PerEntity, [], [], [], [])
  }

  /**
    The defaulted copy constructor and copy assignment: each member is copied by its own
    copy constructor, so the copy has equal fields and equal, identically ordered vectors.
   */
  method CopyRuntimeInputs(source: RuntimeInputs) returns (copy: RuntimeInputs)
    ensures copy == source
  {
    copy := RuntimeInputs(source.execution, source.executionCharacteristics,
                          source.nodeables, source.variables, source.entityIds, source.staticVariables);
  }

  // ---------------------------------------------------------------------------
  // TargetResult, Errors, Translations
  // ---------------------------------------------------------------------------

  /** `AZStd::sys_time_t`, a signed 64-bit duration. */
  newtype SysTime = x: int | -0x8000_0000_0000_0000 <= x < 0x8000_0000_0000_0000

  /** Opaque grammar products carried along with the translated text. */
  datatype SubgraphInterface = SubgraphInterface(handle: nat)
  datatype DebugSymbolMap = DebugSymbolMap(handle: nat)

  /** `TargetResult`: the product of translating for one target. */
  datatype TargetResult = TargetResult(
    text: string,
    subgraphInterface: SubgraphInterface,
    runtimeInputs: RuntimeInputs,
    debugMap: DebugSymbolMap,
    duration: SysTime)

  type ErrorList = seq<string>

  /** `Errors` and `Translations`, keyed by a single target flag. */
  type Errors = map<TargetFlag, ErrorList>
  type Translations = map<TargetFlag, TargetResult>

  // ---------------------------------------------------------------------------
  // Result
  // ---------------------------------------------------------------------------

  /** `Grammar::AbstractCodeModelConstPtr`: a shared reference that may be null. */
  datatype ModelRef = NullModel | Model(handle: nat)

  /**
    `Result`: the outcome of one translation request, with its six const members. The
    three constructors that fill them are declared in the header without their bodies,
    so they are not part of this model; the members cannot change once built.
   */
  datatype Result = Result(
    invalidSourceInfo: string,
    model: ModelRef,
    translations: Translations,
    errors: Errors,
    parseDuration: SysTime,
    translationDuration: SysTime)

  /** `LuaAssetResult`: the interpreted target's asset and its companions. */
  datatype ScriptAssetRef = ScriptAssetRef(handle: nat)
  datatype DependencyReport = DependencyReport(handle: nat)
  datatype LuaAssetResult = LuaAssetResult(
    scriptAsset: ScriptAssetRef,
    runtimeInputs: RuntimeInputs,
    debugMap: DebugSymbolMap,
    dependencies: DependencyReport,
    parseDuration: SysTime,
    translationDuration: SysTime)
}
