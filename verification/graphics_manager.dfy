/**
 * The pipeline-state cache of `Dx12GraphicsManager`
 * (source/core/render/dx12/GraphicsManager.cpp and GraphicsManager.hpp):
 * the current and last-bound descriptors, the map from descriptor to
 * pipeline state object, `SetPipelineStateFlag`, `CreatePipelineStateObject`
 * and the `GetInstance` singleton.
 *
 * Command-list recording is a log: each `SetPipelineState` call appends the
 * descriptor and the map entry it bound. A map entry is `Some(desc)` for a
 * created object and `None` for the null pointer that `operator[]` inserts
 * for a missing key.
 */
module PsoCache {
  import opened Results
  import opened PipelineFlags
  import opened PipelineDecode

  type Entry = Option<PsoDesc>

  /** One recorded `SetPipelineState`: the descriptor and the object bound for it. */
  datatype Binding = Binding(flag: Flag, pso: Entry)

  datatype Cache = Cache(
    current: Flag,
    cached: Flag,
    psos: map<Flag, Entry>,
    created: seq<Flag>,   // descriptors in the order their objects were created
    bound: seq<Binding>)  // every recorded SetPipelineState

  /** The state after construction: both descriptors are `INITIAL_FLAG`, nothing created or bound. */
  function NewCache(): (r: Cache)
    ensures r.current == InitialFlag && r.cached == InitialFlag
    ensures r.psos == map[] && r.created == [] && r.bound == []
  {
    Cache(InitialFlag, InitialFlag, map[], [], [])
  }

  /**
   * The cache invariant: every created object is the one decoding its key
   * builds; every created descriptor has a created object; a graphics
   * descriptor was created at most once; and `cached` is the descriptor of
   * the last binding (`INITIAL_FLAG` before the first).
   */
  ghost predicate Valid(k: FlagConstants, m: Cache) {
    && (forall f :: f in m.psos && m.psos[f].Some? ==> m.psos[f].value == Decode(k, f))
    && (forall i :: 0 <= i < |m.created| ==> m.created[i] in m.psos && m.psos[m.created[i]].Some?)
    && (forall i, j :: 0 <= i < j < |m.created| && m.created[i] == m.created[j] ==> IsCompute(k, m.created[i]))
    && m.cached == (if m.bound == [] then InitialFlag else m.bound[|m.bound| - 1].flag)
  }

  lemma NewCacheValid(k: FlagConstants)
    ensures Valid(k, NewCache())
  {
  }

  /** The entry `operator[]` yields for `f`: the stored one, or a null pointer. */
  function Lookup(psos: map<Flag, Entry>, f: Flag): (r: Entry)
    ensures f !in psos ==> r.None?
  {
    if f in psos then psos[f] else None
  }

  /** Whether `SetPipelineStateFlag(flag, mask, finalFlag)` records a state change. */
  predicate Emits(m: Cache, flag: Flag, mask: Flag, finalFlag: bool) {
    finalFlag && Merge(m.current, flag, mask) != m.cached
  }

  /**
   * `SetPipelineStateFlag`: merge the partial descriptor, and when
   * `finalFlag` holds and the result differs from the bound one, bind the
   * map entry for it (inserting a null entry if it is missing).
   */
  function SetPipelineStateFlag(k: FlagConstants, m: Cache, flag: Flag, mask: Flag, finalFlag: bool): (r: Cache)
    ensures r.current == Merge(m.current, flag, mask)
    ensures r.created == m.created
    ensures Emits(m, flag, mask, finalFlag) ==>
      && r.bound == m.bound + [Binding(r.current, Lookup(m.psos, r.current))]
      && r.cached == r.current
      && r.current in r.psos && r.psos[r.current] == Lookup(m.psos, r.current)
      && (forall f :: f in m.psos ==> f in r.psos && r.psos[f] == m.psos[f])
      && r.psos.Keys == m.psos.Keys + {r.current}
    ensures !Emits(m, flag, mask, finalFlag) ==> r.bound == m.bound && r.cached == m.cached && r.psos == m.psos
    ensures finalFlag ==> r.cached == r.current
    ensures Valid(k, m) ==> Valid(k, r)
  {
    var cur := Merge(m.current, flag, mask);
    if finalFlag && cur != m.cached then
      var entry := Lookup(m.psos, cur);
      m.(current := cur, cached := cur, psos := m.psos[cur := entry], bound := m.bound + [Binding(cur, entry)])
    else
      m.(current := cur)
  }

  /**
   * Whether `ThrowIfFailed` throws while creating `flag`'s object: a compute
   * descriptor whose variant matches no `case` leaves the description's
   * compute shader empty, and the device rejects a compute pipeline state
   * without one.
   */
  predicate CreateThrows(k: FlagConstants, flag: Flag) {
    Decode(k, flag) == ComputePso(None)
  }

  /**
   * `CreatePipelineStateObject`: a compute descriptor always (re)creates its
   * object; a graphics descriptor creates one only when the key is absent,
   * so a null entry left by an earlier bind is never replaced. When the
   * creation throws, `Err` carries the state the manager is left in: the
   * compute path has already indexed the map with `operator[]`, and a
   * failing COM creator writes a null pointer through its output argument,
   * so the key holds a null entry.
   */
  function CreatePipelineStateObject(k: FlagConstants, m: Cache, flag: Flag): (r: Result<Cache, Cache>)
    ensures r.Err? <==> IsCompute(k, flag) && flag * ComputeVariantMask !in k.Variants()
    ensures r.Err? ==> r.error == m.(psos := m.psos[flag := None])
    ensures r.Ok? && (IsCompute(k, flag) || flag !in m.psos) ==>
      r.value.psos == m.psos[flag := Some(Decode(k, flag))] && r.value.created == m.created + [flag]
    ensures r.Ok? ==> r.value.current == m.current && r.value.cached == m.cached && r.value.bound == m.bound
    ensures !IsCompute(k, flag) && flag in m.psos ==> r == Ok(m)
    ensures r.Ok? && Valid(k, m) ==> Valid(k, r.value)
  {
    if CreateThrows(k, flag) then
      Err(m.(psos := m.psos[flag := None]))
    else if IsCompute(k, flag) || flag !in m.psos then
      Ok(m.(psos := m.psos[flag := Some(Decode(k, flag))], created := m.created + [flag]))
    else
      Ok(m)
  }

  /** Repeating the same final bind records nothing the second time. */
  lemma RepeatedFinalBindEmitsOnce(k: FlagConstants, m: Cache, flag: Flag, mask: Flag)
    ensures !Emits(SetPipelineStateFlag(k, m, flag, mask, true), flag, mask, true)
    ensures SetPipelineStateFlag(k, SetPipelineStateFlag(k, m, flag, mask, true), flag, mask, true)
         == SetPipelineStateFlag(k, m, flag, mask, true)
  {
    MergeIdempotent(m.current, flag, mask);
  }

  /** A non-final call only updates the current descriptor. */
  lemma NonFinalNeverEmits(k: FlagConstants, m: Cache, flag: Flag, mask: Flag)
    ensures SetPipelineStateFlag(k, m, flag, mask, false) == m.(current := Merge(m.current, flag, mask))
  {
  }

  /** Creating a graphics descriptor's object twice creates it once. */
  lemma GraphicsCreatedOnce(k: FlagConstants, m: Cache, flag: Flag)
    requires !IsCompute(k, flag)
    ensures CreatePipelineStateObject(k, m, flag).Ok?
    ensures CreatePipelineStateObject(k, CreatePipelineStateObject(k, m, flag).value, flag) == CreatePipelineStateObject(k, m, flag)
  {
  }

  /** Every creation of a compute descriptor that does not throw records another compilation. */
  lemma ComputeAlwaysCreated(k: FlagConstants, m: Cache, flag: Flag)
    requires IsCompute(k, flag)
    ensures var r := CreatePipelineStateObject(k, m, flag);
      r.Ok? ==> CreatePipelineStateObject(k, r.value, flag).Ok? &&
                |CreatePipelineStateObject(k, r.value, flag).value.created| == |m.created| + 2
  {
  }

  /**
   * A compute descriptor whose variant is none of the nine throws on every
   * creation, leaving a null entry under its key.
   */
  lemma UnknownVariantThrows(k: FlagConstants, m: Cache, flag: Flag)
    requires IsCompute(k, flag) && flag * ComputeVariantMask !in k.Variants()
    ensures CreatePipelineStateObject(k, m, flag) == Err(m.(psos := m.psos[flag := None]))
    ensures flag in CreatePipelineStateObject(k, m, flag).error.psos
    ensures Lookup(CreatePipelineStateObject(k, m, flag).error.psos, flag) == None
  {
    UnknownVariantHasNoShader(k, flag);
  }

  /** Binding a descriptor whose object was created binds exactly the state decoding builds. */
  lemma BindAfterCreate(k: FlagConstants, m: Cache, flag: Flag, mask: Flag)
    requires Valid(k, m)
    requires Emits(m, flag, mask, true)
    requires Merge(m.current, flag, mask) in m.created
    ensures SetPipelineStateFlag(k, m, flag, mask, true).bound[|m.bound|]
         == Binding(Merge(m.current, flag, mask), Some(Decode(k, Merge(m.current, flag, mask))))
  {
  }

  /** Binding a descriptor that was never created binds a null object. */
  lemma BindWithoutCreateIsNull(k: FlagConstants, m: Cache, flag: Flag, mask: Flag)
    requires Emits(m, flag, mask, true)
    requires Merge(m.current, flag, mask) !in m.psos
    ensures SetPipelineStateFlag(k, m, flag, mask, true).bound[|m.bound|].pso == None
    ensures Merge(m.current, flag, mask) in SetPipelineStateFlag(k, m, flag, mask, true).psos
  {
  }

  /**
   * If neither the old descriptor nor the merged value uses the upper 32
   * bits, the new descriptor does not either.
   */
  lemma UpperHalfStaysClear(k: FlagConstants, m: Cache, flag: Flag, mask: Flag, finalFlag: bool)
    requires Within(m.current, WholeMask) && Within(flag, WholeMask)
    ensures Within(SetPipelineStateFlag(k, m, flag, mask, finalFlag).current, WholeMask)
  {
  }

  // ---------------------------------------------------------------------
  // GetInstance
  // ---------------------------------------------------------------------

  /** `GetInstance`: create the manager on the first call, return the stored one afterwards. */
  function GetInstance(instance: Option<Cache>): (r: (Option<Cache>, Cache))
    ensures r.0 == Some(r.1)
    ensures instance.Some? ==> r.1 == instance.value
    ensures instance.None? ==> r.1 == NewCache()
  {
    match instance
    case Some(m) => (instance, m)
    case None => (Some(NewCache()), NewCache())
  }

  /** Every call after the first returns the instance the first call created. */
  lemma GetInstanceStable(instance: Option<Cache>)
    ensures GetInstance(GetInstance(instance).0) == GetInstance(instance)
  {
  }
}
