/**
 * The compute passes `Pipeline::OnRender` records after ray tracing
 * (source/app/Pipeline.cpp), driven by three toggles: bilateral
 * denoising, temporal blending and reprojection.
 *
 * The section is modelled as the list of commands it records, in source
 * order: descriptor-table bindings, final `SetPipelineStateFlag` calls and
 * dispatches. `Run` replays such a list and logs, for every dispatch, the
 * committed descriptor, the mask of the call that committed it, and the
 * tables bound to root parameter 1 (the output UAV) and 4 (the input SRV).
 * Root constant-buffer views and the G-buffer's barriers are not part of
 * the log.
 */
module DenoiseSchedule {
  import opened Results
  import opened PipelineFlags
  import opened PipelineDecode

  /** A descriptor table of the current frame, or the previous frame's SRV. */
  datatype Table = Uav(index: nat) | Srv(index: nat) | PreviousSrv(index: nat) | GBufferSrvs

  datatype Command =
    | SetTable(param: nat, table: Table)   // SetComputeRootDescriptorTable
    | SetFlag(flag: Flag, mask: Flag)      // SetPipelineStateFlag(flag, mask, true)
    | Dispatch

  /** Root parameter of the output UAV table. */
  const OutputParam: nat := 1

  /** Root parameter of the input SRV table. */
  const InputParam: nat := 4

  // Indices of the compute variants in `FlagConstants.Variants()`.
  const Denoise0: nat := 0
  const Denoise1: nat := 1
  const Denoise2: nat := 2
  const Denoise4: nat := 3
  const Denoise8: nat := 4
  const Denoise16: nat := 5
  const DenoiseRP: nat := 6
  const DenoiseReadback: nat := 7
  const DenoiseVariance: nat := 8

  /** One logged dispatch. */
  datatype Dispatched = Dispatched(flag: Flag, mask: Flag, output: Option<Table>, input: Option<Table>)

  datatype Recorder = Recorder(tables: map<nat, Table>, current: Flag, dispatches: seq<Dispatched>, lastMask: Flag)

  function Bound(tables: map<nat, Table>, param: nat): Option<Table> {
    if param in tables then Some(tables[param]) else None
  }

  /** Replaying one command. A final flag update always leaves the merged descriptor committed. */
  function Step(s: Recorder, c: Command): (r: Recorder)
    ensures c.Dispatch? ==> r.dispatches == s.dispatches + [Dispatched(s.current, s.lastMask, Bound(s.tables, OutputParam), Bound(s.tables, InputParam))]
    ensures !c.Dispatch? ==> r.dispatches == s.dispatches
  {
    match c
    case SetTable(p, t) => s.(tables := s.tables[p := t])
    case SetFlag(f, m) => s.(current := Merge(s.current, f, m), lastMask := m)
    case Dispatch => s.(dispatches := s.dispatches + [Dispatched(s.current, s.lastMask, Bound(s.tables, OutputParam), Bound(s.tables, InputParam))])
  }

  function Run(s: Recorder, cmds: seq<Command>): (r: Recorder)
    ensures |r.dispatches| >= |s.dispatches| && r.dispatches[..|s.dispatches|] == s.dispatches
    decreases |cmds|
  {
    if cmds == [] then s else Run(Step(s, cmds[0]), cmds[1..])
  }

  /** Replay helper: running a command list is running its head, then its tail. */
  lemma RunCons(s: Recorder, c: Command, rest: seq<Command>)
    ensures Run(s, [c] + rest) == Run(Step(s, c), rest)
  {
    assert ([c] + rest)[1..] == rest;
  }

  /** Replay helper: running a concatenation is running its parts in turn. */
  lemma {:induction false} RunAppend(s: Recorder, a: seq<Command>, b: seq<Command>)
    ensures Run(s, a + b) == Run(Run(s, a), b)
    decreases |a|
  {
    if a == [] {
      assert a + b == b;
    } else {
      assert a + b == [a[0]] + (a[1..] + b);
      assert a == [a[0]] + a[1..];
      RunCons(s, a[0], a[1..] + b);
      RunCons(s, a[0], a[1..]);
      RunAppend(Step(s, a[0]), a[1..], b);
    }
  }

  /** Replay helper: the unfolding of a two-command run, used by the pass lemmas below. */
  lemma RunTwo(s: Recorder, a: Command, b: Command)
    ensures Run(s, [a, b]) == Step(Step(s, a), b)
  {
    RunCons(s, a, [b]);
    RunCons(Step(s, a), b, []);
  }

  /** Replay helper: the unfolding of a four-command run, used by the pass lemmas below. */
  lemma RunFour(s: Recorder, a: Command, b: Command, c: Command, d: Command)
    ensures Run(s, [a, b, c, d]) == Step(Step(Step(Step(s, a), b), c), d)
  {
    RunCons(s, a, [b, c, d]);
    RunCons(Step(s, a), b, [c, d]);
    RunTwo(Step(Step(s, a), b), c, d);
  }

  // ---------------------------------------------------------------------
  // The recorded commands
  // ---------------------------------------------------------------------

  /** The bindings made before any pass when a toggle is on. */
  const Prologue: seq<Command> := [
    SetTable(1, Uav(0)), SetTable(2, Uav(2)), SetTable(3, PreviousSrv(0)),
    SetTable(4, Srv(1)), SetTable(5, GBufferSrvs)]

  /** Temporal blending: the reprojecting variant when reprojection is on, else variant 0. */
  function BlendPass(k: FlagConstants, reprojection: bool): seq<Command>
    requires k.Valid()
  {
    [SetFlag(EncodeCompute(k, if reprojection then DenoiseRP else Denoise0), WholeMask), Dispatch]
  }

  /** The first bilateral pass binds its tables before committing its descriptor under the whole mask. */
  function FirstDenoisePass(k: FlagConstants): seq<Command>
    requires k.Valid()
  {
    [SetTable(1, Uav(1)), SetTable(4, Srv(0)), SetFlag(EncodeCompute(k, Denoise1), WholeMask), Dispatch]
  }

  /** Every later pass commits under the compute-pass mask, then binds its tables. */
  function DenoisePass(k: FlagConstants, variant: nat, uav: nat, srv: nat): seq<Command>
    requires k.Valid() && variant < 9
  {
    [SetFlag(EncodeCompute(k, variant), ComputePassMask), SetTable(1, Uav(uav)), SetTable(4, Srv(srv)), Dispatch]
  }

  function DenoiseChain(k: FlagConstants): seq<Command>
    requires k.Valid()
  {
    FirstDenoisePass(k)
    + DenoisePass(k, Denoise2, 0, 1)
    + DenoisePass(k, Denoise4, 1, 0)
    + DenoisePass(k, Denoise8, 0, 1)
    + DenoisePass(k, Denoise16, 1, 0)
    + DenoisePass(k, DenoiseReadback, 0, 1)
  }

  /** With every toggle off: the variance pass alone. */
  function VariancePass(k: FlagConstants): seq<Command>
    requires k.Valid()
  {
    [SetFlag(EncodeCompute(k, DenoiseVariance), WholeMask),
     SetTable(1, Uav(0)), SetTable(2, Uav(2)), SetTable(4, Srv(1)), SetTable(5, GBufferSrvs), Dispatch]
  }

  /** The denoising section for the three toggles. */
  function Commands(k: FlagConstants, denoise: bool, blend: bool, reprojection: bool): seq<Command>
    requires k.Valid()
  {
    if denoise || blend || reprojection then
      Prologue
      + (if blend then BlendPass(k, reprojection) else [])
      + (if denoise then DenoiseChain(k) else [])
    else
      VariancePass(k)
  }

  /** The recorder as the section finds it: no tables bound under the new root signature, nothing dispatched. */
  function Entry(current: Flag): Recorder {
    Recorder(map[], current, [], {})
  }

  /** The dispatches the section records. */
  function Schedule(k: FlagConstants, current: Flag, denoise: bool, blend: bool, reprojection: bool): seq<Dispatched>
    requires k.Valid()
  {
    Run(Entry(current), Commands(k, denoise, blend, reprojection)).dispatches
  }

  // ---------------------------------------------------------------------
  // Replaying the blocks
  // ---------------------------------------------------------------------

  /** Bindings only: nothing is dispatched and the descriptor is unchanged. */
  lemma PrologueRuns(s: Recorder)
    ensures Run(s, Prologue).dispatches == s.dispatches
    ensures Run(s, Prologue).current == s.current
    ensures Bound(Run(s, Prologue).tables, OutputParam) == Some(Uav(0))
    ensures Bound(Run(s, Prologue).tables, InputParam) == Some(Srv(1))
  {
    RunCons(s, Prologue[0], Prologue[1..]);
    RunFour(Step(s, Prologue[0]), Prologue[1], Prologue[2], Prologue[3], Prologue[4]);
  }

  /** A pass committed under the whole mask replaces a descriptor that uses only the low 32 bits. */
  lemma BlendPassRuns(k: FlagConstants, s: Recorder, reprojection: bool)
    requires k.Valid() && Within(s.current, WholeMask)
    ensures var v := if reprojection then DenoiseRP else Denoise0;
      && Run(s, BlendPass(k, reprojection)).dispatches
           == s.dispatches + [Dispatched(EncodeCompute(k, v), WholeMask, Bound(s.tables, OutputParam), Bound(s.tables, InputParam))]
      && Run(s, BlendPass(k, reprojection)).current == EncodeCompute(k, v)
      && Run(s, BlendPass(k, reprojection)).tables == s.tables
  {
    var p := BlendPass(k, reprojection);
    assert p == [p[0], p[1]];
    RunTwo(s, p[0], p[1]);
    assert s.current - WholeMask == {};
    var s1 := Step(s, p[0]);
    assert s1.current == EncodeCompute(k, if reprojection then DenoiseRP else Denoise0);
    assert s1.lastMask == WholeMask && s1.tables == s.tables && s1.dispatches == s.dispatches;
  }

  lemma FirstDenoisePassRuns(k: FlagConstants, s: Recorder)
    requires k.Valid() && Within(s.current, WholeMask)
    ensures Run(s, FirstDenoisePass(k)).dispatches
         == s.dispatches + [Dispatched(EncodeCompute(k, Denoise1), WholeMask, Some(Uav(1)), Some(Srv(0)))]
    ensures Run(s, FirstDenoisePass(k)).current == EncodeCompute(k, Denoise1)
  {
    var p := FirstDenoisePass(k);
    assert p == [p[0], p[1], p[2], p[3]];
    RunFour(s, p[0], p[1], p[2], p[3]);
    assert s.current - WholeMask == {};
    var s3 := Step(Step(Step(s, p[0]), p[1]), p[2]);
    assert s3.current == EncodeCompute(k, Denoise1);
    assert s3.lastMask == WholeMask && s3.dispatches == s.dispatches;
    assert Bound(s3.tables, OutputParam) == Some(Uav(1));
    assert Bound(s3.tables, InputParam) == Some(Srv(0));
  }

  /**
   * A later pass: after a compute descriptor, the update under the
   * compute-pass mask commits exactly `RENDER_COMPUTE_SHADER | variant`.
   */
  lemma DenoisePassRuns(k: FlagConstants, s: Recorder, variant: nat, uav: nat, srv: nat)
    requires k.Valid() && variant < 9
    requires Within(s.current, ComputePassMask)
    ensures Run(s, DenoisePass(k, variant, uav, srv)).dispatches
         == s.dispatches + [Dispatched(EncodeCompute(k, variant), ComputePassMask, Some(Uav(uav)), Some(Srv(srv)))]
    ensures Run(s, DenoisePass(k, variant, uav, srv)).current == EncodeCompute(k, variant)
  {
    var p := DenoisePass(k, variant, uav, srv);
    assert p == [p[0], p[1], p[2], p[3]];
    RunFour(s, p[0], p[1], p[2], p[3]);
    assert s.current - ComputePassMask == {};
    var s3 := Step(Step(Step(s, p[0]), p[1]), p[2]);
    assert s3.current == EncodeCompute(k, variant);
    assert s3.lastMask == ComputePassMask;
    assert s3.dispatches == s.dispatches;
    assert Bound(s3.tables, OutputParam) == Some(Uav(uav));
    assert Bound(s3.tables, InputParam) == Some(Srv(srv));
  }

  lemma VariancePassRuns(k: FlagConstants, s: Recorder)
    requires k.Valid() && Within(s.current, WholeMask)
    ensures Run(s, VariancePass(k)).dispatches
         == s.dispatches + [Dispatched(EncodeCompute(k, DenoiseVariance), WholeMask, Some(Uav(0)), Some(Srv(1)))]
  {
    var p := VariancePass(k);
    assert p == [p[0], p[1]] + [p[2], p[3], p[4], p[5]];
    RunAppend(s, [p[0], p[1]], [p[2], p[3], p[4], p[5]]);
    RunTwo(s, p[0], p[1]);
    RunFour(Step(Step(s, p[0]), p[1]), p[2], p[3], p[4], p[5]);
    assert s.current - WholeMask == {};
    var s5 := Step(Step(Step(Step(Step(s, p[0]), p[1]), p[2]), p[3]), p[4]);
    assert s5.current == EncodeCompute(k, DenoiseVariance);
    assert s5.lastMask == WholeMask && s5.dispatches == s.dispatches;
    assert Bound(s5.tables, OutputParam) == Some(Uav(0));
    assert Bound(s5.tables, InputParam) == Some(Srv(1));
  }

  // ---------------------------------------------------------------------
  // The schedule
  // ---------------------------------------------------------------------

  /** The variant of bilateral pass `i`: 1, 2, 4, 8, 16, then read-back. */
  function ChainVariant(i: nat): (v: nat)
    requires i < 6
    ensures v < 9 && v != Denoise0 && v != DenoiseRP && v != DenoiseVariance
  {
    [Denoise1, Denoise2, Denoise4, Denoise8, Denoise16, DenoiseReadback][i]
  }

  /**
   * Reference definition of the bilateral chain: the output UAV alternates
   * 1, 0, 1, 0, 1, 0, the input SRV is always the other index, and only the
   * first pass commits under the whole mask.
   */
  function ExpectedChain(k: FlagConstants): (r: seq<Dispatched>)
    requires k.Valid()
    ensures |r| == 6
  {
    seq(6, i requires 0 <= i < 6 =>
      Dispatched(EncodeCompute(k, ChainVariant(i)), if i == 0 then WholeMask else ComputePassMask,
                 Some(Uav(1 - i % 2)), Some(Srv(i % 2))))
  }

  /** The blending dispatch, when blending is on. */
  function ExpectedBlend(k: FlagConstants, blend: bool, reprojection: bool): (r: seq<Dispatched>)
    requires k.Valid()
    ensures |r| == (if blend then 1 else 0)
  {
    if blend then [Dispatched(EncodeCompute(k, if reprojection then DenoiseRP else Denoise0), WholeMask, Some(Uav(0)), Some(Srv(1)))]
    else []
  }

  /** Bilateral passes 2 to 5 of the chain, each after a compute descriptor. */
  function LaterPasses(k: FlagConstants): seq<Command>
    requires k.Valid()
  {
    DenoisePass(k, Denoise2, 0, 1)
    + DenoisePass(k, Denoise4, 1, 0)
    + DenoisePass(k, Denoise8, 0, 1)
    + DenoisePass(k, Denoise16, 1, 0)
    + DenoisePass(k, DenoiseReadback, 0, 1)
  }

  /** Pass `i` (1 to 5) of the chain, as its own command block. */
  function ChainPass(k: FlagConstants, i: nat): seq<Command>
    requires k.Valid() && 1 <= i < 6
  {
    DenoisePass(k, ChainVariant(i), 1 - i % 2, i % 2)
  }

  lemma ChainPassRuns(k: FlagConstants, s: Recorder, i: nat)
    requires k.Valid() && 1 <= i < 6 && Within(s.current, ComputePassMask)
    ensures Run(s, ChainPass(k, i)).dispatches == s.dispatches + [ExpectedChain(k)[i]]
    ensures Within(Run(s, ChainPass(k, i)).current, ComputePassMask)
  {
    DenoisePassRuns(k, s, ChainVariant(i), 1 - i % 2, i % 2);
  }

  /** Chain passes `i` up to (not including) `j`, one block after another. */
  function ChainPasses(k: FlagConstants, i: nat, j: nat): seq<Command>
    requires k.Valid() && 1 <= i <= j <= 6
    decreases j - i
  {
    if i == j then [] else ChainPass(k, i) + ChainPasses(k, i + 1, j)
  }

  /** A suffix is its first element followed by the next suffix. */
  lemma SuffixCons(e: seq<Dispatched>, i: nat)
    requires i < |e|
    ensures e[i..] == [e[i]] + e[i + 1..]
  {
  }

  lemma {:induction false} ChainPassesRun(k: FlagConstants, s: Recorder, i: nat)
    requires k.Valid() && 1 <= i <= 6 && Within(s.current, ComputePassMask)
    ensures Run(s, ChainPasses(k, i, 6)).dispatches == s.dispatches + ExpectedChain(k)[i..]
    decreases 6 - i
  {
    if i < 6 {
      ChainPassRuns(k, s, i);
      var s1 := Run(s, ChainPass(k, i));
      RunAppend(s, ChainPass(k, i), ChainPasses(k, i + 1, 6));
      ChainPassesRun(k, s1, i + 1);
      SuffixCons(ExpectedChain(k), i);
    }
  }

  /** The source's five blocks are chain passes 1 to 5. */
  lemma LaterPassesAreChainPasses(k: FlagConstants)
    requires k.Valid()
    ensures LaterPasses(k) == ChainPasses(k, 1, 6)
  {
    assert ChainPasses(k, 5, 6) == ChainPass(k, 5);
    assert ChainPasses(k, 4, 6) == ChainPass(k, 4) + ChainPass(k, 5);
    assert ChainPasses(k, 3, 6) == ChainPass(k, 3) + ChainPass(k, 4) + ChainPass(k, 5);
    assert ChainPasses(k, 2, 6) == ChainPass(k, 2) + ChainPass(k, 3) + ChainPass(k, 4) + ChainPass(k, 5);
  }

  lemma DenoiseChainRuns(k: FlagConstants, s: Recorder)
    requires k.Valid() && Within(s.current, WholeMask)
    ensures Run(s, DenoiseChain(k)).dispatches == s.dispatches + ExpectedChain(k)
  {
    var e := ExpectedChain(k);
    assert DenoiseChain(k) == FirstDenoisePass(k) + LaterPasses(k);
    FirstDenoisePassRuns(k, s);
    RunAppend(s, FirstDenoisePass(k), LaterPasses(k));
    LaterPassesAreChainPasses(k);
    ChainPassesRun(k, Run(s, FirstDenoisePass(k)), 1);
    SuffixCons(e, 0);
  }

  /** The dispatches in front of the bilateral chain. */
  lemma {:induction false} OpeningRuns(k: FlagConstants, current: Flag, blend: bool, reprojection: bool)
    requires k.Valid() && Within(current, WholeMask)
    ensures var s := Run(Entry(current), Prologue + (if blend then BlendPass(k, reprojection) else []));
      s.dispatches == ExpectedBlend(k, blend, reprojection) && Within(s.current, WholeMask)
  {
    var e := Entry(current);
    PrologueRuns(e);
    var s := Run(e, Prologue);
    RunAppend(e, Prologue, if blend then BlendPass(k, reprojection) else []);
    if blend {
      BlendPassRuns(k, s, reprojection);
    }
  }

  /** With every toggle off only the variance pass runs, writing UAV 0 and reading SRV 1. */
  lemma ScheduleAllOff(k: FlagConstants, current: Flag)
    requires k.Valid() && Within(current, WholeMask)
    ensures Schedule(k, current, false, false, false)
         == [Dispatched(EncodeCompute(k, DenoiseVariance), WholeMask, Some(Uav(0)), Some(Srv(1)))]
  {
    VariancePassRuns(k, Entry(current));
  }

  /**
   * Without bilateral denoising: blending dispatches the reprojecting
   * variant when reprojection is on and variant 0 otherwise;
   * reprojection alone dispatches nothing.
   */
  lemma ScheduleWithoutDenoise(k: FlagConstants, current: Flag, blend: bool, reprojection: bool)
    requires k.Valid() && Within(current, WholeMask)
    requires blend || reprojection
    ensures Schedule(k, current, false, blend, reprojection) == ExpectedBlend(k, blend, reprojection)
    ensures !blend ==> Schedule(k, current, false, blend, reprojection) == []
  {
    OpeningRuns(k, current, blend, reprojection);
    assert Commands(k, false, blend, reprojection) == Prologue + (if blend then BlendPass(k, reprojection) else []) + [];
    assert Prologue + (if blend then BlendPass(k, reprojection) else []) + [] == Prologue + (if blend then BlendPass(k, reprojection) else []);
  }

  /** With bilateral denoising: the optional blending dispatch, then the six-pass chain. */
  lemma ScheduleWithDenoise(k: FlagConstants, current: Flag, blend: bool, reprojection: bool)
    requires k.Valid() && Within(current, WholeMask)
    ensures Schedule(k, current, true, blend, reprojection) == ExpectedBlend(k, blend, reprojection) + ExpectedChain(k)
  {
    var opening := Prologue + (if blend then BlendPass(k, reprojection) else []);
    OpeningRuns(k, current, blend, reprojection);
    RunAppend(Entry(current), opening, DenoiseChain(k));
    DenoiseChainRuns(k, Run(Entry(current), opening));
  }

  /** The reference schedule, for each combination of toggles. */
  function ExpectedSchedule(k: FlagConstants, denoise: bool, blend: bool, reprojection: bool): seq<Dispatched>
    requires k.Valid()
  {
    if !denoise && !blend && !reprojection then
      [Dispatched(EncodeCompute(k, DenoiseVariance), WholeMask, Some(Uav(0)), Some(Srv(1)))]
    else
      ExpectedBlend(k, blend, reprojection) + (if denoise then ExpectedChain(k) else [])
  }

  /** The whole schedule for any toggles, against the reference definitions. */
  lemma ScheduleCases(k: FlagConstants, current: Flag, denoise: bool, blend: bool, reprojection: bool)
    requires k.Valid() && Within(current, WholeMask)
    ensures Schedule(k, current, denoise, blend, reprojection) == ExpectedSchedule(k, denoise, blend, reprojection)
    ensures Schedule(k, current, denoise, blend, reprojection) == [] <==> !denoise && !blend && reprojection
  {
    if denoise {
      ScheduleWithDenoise(k, current, blend, reprojection);
    } else if blend || reprojection {
      ScheduleWithoutDenoise(k, current, blend, reprojection);
      assert ExpectedBlend(k, blend, reprojection) + [] == ExpectedBlend(k, blend, reprojection);
    } else {
      ScheduleAllOff(k, current);
    }
  }

  /** Every dispatched descriptor builds the compute shader of its variant. */
  lemma ScheduleDecodes(k: FlagConstants, current: Flag, denoise: bool, blend: bool, reprojection: bool, i: nat)
    requires k.Valid() && Within(current, WholeMask)
    requires i < |Schedule(k, current, denoise, blend, reprojection)|
    ensures var f := Schedule(k, current, denoise, blend, reprojection)[i].flag;
      exists v :: 0 <= v < 9 && f == EncodeCompute(k, v) && Decode(k, f) == ComputePso(Some(v))
  {
    ScheduleCases(k, current, denoise, blend, reprojection);
    var d := Schedule(k, current, denoise, blend, reprojection);
    var b := ExpectedBlend(k, blend, reprojection);
    var v: nat;
    if !denoise && !blend && !reprojection {
      v := DenoiseVariance;
    } else if i < |b| {
      v := if reprojection then DenoiseRP else Denoise0;
    } else {
      v := ChainVariant(i - |b|);
    }
    assert d[i].flag == EncodeCompute(k, v);
    DecodeEncodeCompute(k, v);
  }

  // ---------------------------------------------------------------------
  // Which texture each view shows
  // ---------------------------------------------------------------------

  /** The texture UAV slot `i` of a frame views: ray-tracing target 0 or 1 (2 is the shared variance target). */
  function UavTarget(i: nat): nat { i }

  /** As written, both SRV slots of a frame are created on ray-tracing target 0. */
  function SrvTargetAsWritten(i: nat): nat { 0 }

  /**
   * The mapping the bilateral chain's alternation expects: SRV slot `i`
   * views ray-tracing target `i`, like UAV slot `i`.
   */
  function SrvTarget(i: nat): nat { i }

  /** The texture `DispatchRays` writes just before the denoising passes: the one UAV slot 0 views. */
  const TracedTarget: nat := UavTarget(0)

  /** A dispatch whose input SRV shows, with both SRV slots as written, the texture its output UAV writes. */
  predicate ReadsOwnOutputAsWritten(d: Dispatched) {
    d.output.Some? && d.output.value.Uav? && d.input.Some? && d.input.value.Srv? &&
    SrvTargetAsWritten(d.input.value.index) == UavTarget(d.output.value.index)
  }

  /** A dispatch whose input SRV shows the texture its output UAV writes. */
  predicate ReadsOwnOutput(d: Dispatched) {
    d.output.Some? && d.output.value.Uav? && d.input.Some? && d.input.value.Srv? &&
    SrvTarget(d.input.value.index) == UavTarget(d.output.value.index)
  }

  /** Pass `b` reads, through its SRV, the texture pass `a` wrote through its UAV. */
  predicate ReadsOutputOf(b: Dispatched, a: Dispatched) {
    a.output.Some? && a.output.value.Uav? && b.input.Some? && b.input.value.Srv? &&
    SrvTarget(b.input.value.index) == UavTarget(a.output.value.index)
  }

  /** `ReadsOutputOf` with both SRV slots as written. */
  predicate ReadsOutputOfAsWritten(b: Dispatched, a: Dispatched) {
    a.output.Some? && a.output.value.Uav? && b.input.Some? && b.input.value.Srv? &&
    SrvTargetAsWritten(b.input.value.index) == UavTarget(a.output.value.index)
  }

  /** Every pass writes UAV 0 or 1 and reads the SRV of the other index, `1 - uav`. */
  predicate AlternatingViews(d: seq<Dispatched>) {
    forall i :: 0 <= i < |d| ==>
      && d[i].output.Some? && d[i].output.value.Uav? && d[i].output.value.index < 2
      && d[i].input == Some(Srv(1 - d[i].output.value.index))
  }

  /** Each of the passes `lo + 1 .. hi` reads what the pass before it wrote. */
  predicate PingPongs(d: seq<Dispatched>, lo: nat, hi: nat)
    requires lo <= hi < |d|
  {
    forall i :: lo <= i < hi ==> ReadsOutputOf(d[i + 1], d[i])
  }

  /** Prefixing passes shifts a ping-pong run without breaking it. */
  lemma PingPongsShift(b: seq<Dispatched>, e: seq<Dispatched>, hi: nat)
    requires hi < |e| && PingPongs(e, 0, hi)
    ensures PingPongs(b + e, |b|, |b| + hi)
  {
    var d := b + e;
    forall i | |b| <= i < |b| + hi
      ensures ReadsOutputOf(d[i + 1], d[i])
    {
      assert d[i] == e[i - |b|] && d[i + 1] == e[i - |b| + 1];
    }
  }

  /** The views of the reference chain: UAV `1 - i % 2` written, SRV `i % 2` read. */
  lemma ExpectedChainViews(k: FlagConstants)
    requires k.Valid()
    ensures forall i :: 0 <= i < 6 ==>
      ExpectedChain(k)[i].output == Some(Uav(1 - i % 2)) && ExpectedChain(k)[i].input == Some(Srv(i % 2))
  {
  }

  /** Every pass of the reference schedule writes UAV 0 or 1 and reads the SRV of the other index. */
  lemma ExpectedScheduleViews(k: FlagConstants, denoise: bool, blend: bool, reprojection: bool)
    requires k.Valid()
    ensures AlternatingViews(ExpectedSchedule(k, denoise, blend, reprojection))
  {
    var d := ExpectedSchedule(k, denoise, blend, reprojection);
    var b := ExpectedBlend(k, blend, reprojection);
    ExpectedChainViews(k);
    forall i | 0 <= i < |d|
      ensures d[i].output.Some? && d[i].output.value.Uav? && d[i].output.value.index < 2
      ensures d[i].input == Some(Srv(1 - d[i].output.value.index))
    {
      if denoise && i >= |b| {
        assert d[i] == ExpectedChain(k)[i - |b|];
      }
    }
  }

  /** Every pass writes a UAV and reads an SRV, and the SRV index is always the other one: `1 - uav`. */
  lemma ScheduleViews(k: FlagConstants, current: Flag, denoise: bool, blend: bool, reprojection: bool)
    requires k.Valid() && Within(current, WholeMask)
    ensures AlternatingViews(Schedule(k, current, denoise, blend, reprojection))
  {
    ScheduleCases(k, current, denoise, blend, reprojection);
    ExpectedScheduleViews(k, denoise, blend, reprojection);
  }

  /**
   * As written, every pass that writes UAV 0 (the variance pass, blending,
   * and bilateral passes 2, 8 and read-back) samples the very texture it
   * writes.
   */
  lemma PassesReadOwnOutputAsWritten(k: FlagConstants, current: Flag, denoise: bool, blend: bool, reprojection: bool)
    requires k.Valid() && Within(current, WholeMask)
    ensures var d := Schedule(k, current, denoise, blend, reprojection);
      forall i :: 0 <= i < |d| && d[i].output == Some(Uav(0)) ==> ReadsOwnOutputAsWritten(d[i])
  {
    ScheduleViews(k, current, denoise, blend, reprojection);
  }

  /**
   * As written, the second bilateral pass writes UAV 0 while reading UAV
   * 0's own texture, so it does not read what the first pass wrote.
   */
  lemma SecondPassBreaksPingPongAsWritten(k: FlagConstants, current: Flag, blend: bool, reprojection: bool)
    requires k.Valid() && Within(current, WholeMask)
    ensures var d := Schedule(k, current, true, blend, reprojection);
      var b := if blend then 1 else 0;
      && |d| == b + 6
      && d[b + 1].output == Some(Uav(0)) && ReadsOwnOutputAsWritten(d[b + 1])
      && !ReadsOutputOfAsWritten(d[b + 1], d[b])
  {
    ScheduleWithDenoise(k, current, blend, reprojection);
  }

  /**
   * With each SRV slot on its own target, no bilateral pass samples the
   * texture it writes.
   */
  lemma ChainReadsNoOwnOutput(k: FlagConstants, current: Flag, blend: bool, reprojection: bool)
    requires k.Valid() && Within(current, WholeMask)
    ensures var d := Schedule(k, current, true, blend, reprojection);
      var b := if blend then 1 else 0;
      forall i :: b <= i < |d| ==> !ReadsOwnOutput(d[i])
  {
    ScheduleViews(k, current, true, blend, reprojection);
  }

  /**
   * The blending pass, or the variance pass when every toggle is off, is
   * the first dispatch of the frame, and exactly these read SRV 1. As
   * written, SRV 1 shows the texture `DispatchRays` has just written. With
   * SRV 1 moved onto target 1 it would show a texture no dispatch of the
   * frame has written before it, so the chain's mapping does not fit these
   * passes: they need SRV 1 on the traced target.
   */
  lemma OpeningPassReadsTrace(k: FlagConstants, current: Flag, denoise: bool, blend: bool, reprojection: bool)
    requires k.Valid() && Within(current, WholeMask)
    ensures var d := Schedule(k, current, denoise, blend, reprojection);
      (|d| > 0 && d[0].input == Some(Srv(1))) <==> (blend || (!denoise && !reprojection))
    ensures var d := Schedule(k, current, denoise, blend, reprojection);
      |d| > 0 && d[0].input == Some(Srv(1)) ==>
        && d[0].output == Some(Uav(0))
        && SrvTargetAsWritten(d[0].input.value.index) == TracedTarget
        && SrvTarget(d[0].input.value.index) != TracedTarget
  {
    ScheduleCases(k, current, denoise, blend, reprojection);
    ExpectedChainViews(k);
    if denoise {
      var d := ExpectedSchedule(k, denoise, blend, reprojection);
      if !blend {
        assert d[0] == ExpectedChain(k)[0];
      }
    }
  }

  /** In the reference chain, every pass after the first reads what the one before wrote. */
  lemma ExpectedChainPingPongs(k: FlagConstants)
    requires k.Valid()
    ensures PingPongs(ExpectedChain(k), 0, 5)
  {
    ExpectedChainViews(k);
  }

  /** With each SRV slot on its own target, every bilateral pass after the first reads what the one before wrote. */
  lemma ChainPingPongs(k: FlagConstants, current: Flag, blend: bool, reprojection: bool)
    requires k.Valid() && Within(current, WholeMask)
    ensures var d := Schedule(k, current, true, blend, reprojection);
      var b := if blend then 1 else 0;
      |d| == b + 6 && PingPongs(d, b, b + 5)
  {
    ScheduleWithDenoise(k, current, blend, reprojection);
    ExpectedChainPingPongs(k);
    PingPongsShift(ExpectedBlend(k, blend, reprojection), ExpectedChain(k), 5);
  }

  /** `Dispatch(width / 256 + 1, ...)`: enough 256-wide groups to cover every column, and at most one more. */
  function ThreadGroups(width: nat): (r: nat)
    ensures r * 256 > width
    ensures (r - 1) * 256 <= width
  {
    width / 256 + 1
  }
}
