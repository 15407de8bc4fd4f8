/**
 * The module body of N_Moving_Objects.py as a function of the world it runs
 * in: the shared settings module `av`, the file system, the environment, the
 * interpreter's module cache and the namespace of N_Moving_Objects itself.
 *
 * Importing or reloading one of the analysis stages is an event appended
 * to a log; N_T_OB is the buffer transform of module BufferTransform, and
 * the two static visualisations are the drawing loops of modules
 * StaticAbsolute and TennisCourt.
 */
module MovingObjects {
  import opened Wrappers
  import opened Files
  import opened Loader
  import BufferTransform
  import Plots
  import StaticAbsolute
  import TennisCourt

  // ---------------------------------------------------------------------------
  // Names

  /** The four PDP variants, in the order the module body visits them. */
  datatype Variant = Fundamental | Buffer | Rough | BufferRough

  /** The analysis stages each variant runs. */
  datatype Stage = Pdp | HeatMap | HClust | Mds | TopK

  /** The order in which a variant runs its stages. */
  const STAGES: seq<Stage> := [Pdp, HeatMap, HClust, Mds, TopK]

  function StageModule(s: Stage): string {
    match s
    case Pdp => "N_PDP"
    case HeatMap => "N_VA_HeatMap"
    case HClust => "N_VA_HClust"
    case Mds => "N_VA_Mds"
    case TopK => "N_VA_TopK"
  }

  /** No stage of the loop at lines 125-151 is the buffer transform or a static visualisation. */
  lemma StageIsOpaque(s: Stage)
    ensures Opaque(StageModule(s))
  {
    assert |StageModule(s)| != |BUFFER_MODULE| && |StageModule(s)| < |TENNIS_COURT| < |STATIC_ABSOLUTE|;
  }

  const STATIC_ABSOLUTE := "N_VA_StaticAbsolute"
  const TENNIS_COURT := "N_VA_TennisCourt"
  const BUFFER_MODULE := "N_T_OB"
  const RUNNER := "N_Moving_Objects"

  /** The modules whose bodies the model runs: the buffer transform and the two static visualisations. */
  predicate IsPlot(m: string) {
    m == STATIC_ABSOLUTE || m == TENNIS_COURT
  }

  /** A module whose body the model does not run: its import only caches, binds and logs it. */
  predicate Opaque(m: string) {
    m != BUFFER_MODULE && !IsPlot(m)
  }

  /** The copy of the dataset the fundamental and rough variants analyse. */
  const FUNDAMENTAL_NAME := "N_C_PDPg_fundamental_Dataset.csv"

  // ---------------------------------------------------------------------------
  // The settings module `av`

  /** The toggles of `av` the module body reads; a toggle is on when it equals 1. */
  datatype Toggles = Toggles(
    fundamental: int, buffer: int, rough: int, bufferRough: int,
    pdp: int, heatMap: int, hClust: int, mds: int, topK: int,
    staticAbsolute: int, tennisCourt: int)

  function VariantToggle(t: Toggles, v: Variant): int {
    match v
    case Fundamental => t.fundamental
    case Buffer => t.buffer
    case Rough => t.rough
    case BufferRough => t.bufferRough
  }

  function StageToggle(t: Toggles, s: Stage): int {
    match s
    case Pdp => t.pdp
    case HeatMap => t.heatMap
    case HClust => t.hClust
    case Mds => t.mds
    case TopK => t.topK
  }

  /** The `*_active` flags of `av`. */
  datatype Active = Active(fundamental: int, buffer: int, rough: int, bufferRough: int)

  function Flag(a: Active, v: Variant): int {
    match v
    case Fundamental => a.fundamental
    case Buffer => a.buffer
    case Rough => a.rough
    case BufferRough => a.bufferRough
  }

  function SetFlag(a: Active, v: Variant, x: int): (a': Active)
    ensures Flag(a', v) == x
    ensures forall u :: u != v ==> Flag(a', u) == Flag(a, u)
  {
    match v
    case Fundamental => a.(fundamental := x)
    case Buffer => a.(buffer := x)
    case Rough => a.(rough := x)
    case BufferRough => a.(bufferRough := x)
  }

  /** The variants whose flag is 1. */
  function ActiveSet(a: Active): (s: set<Variant>)
    ensures forall v :: v in s <==> Flag(a, v) == 1
  {
    (if a.fundamental == 1 then {Fundamental} else {}) +
    (if a.buffer == 1 then {Buffer} else {}) +
    (if a.rough == 1 then {Rough} else {}) +
    (if a.bufferRough == 1 then {BufferRough} else {})
  }

  const NONE_ACTIVE := Active(0, 0, 0, 0)

  /**
   * The attributes of `av` the module body reads or writes. `buffer_x` and
   * `buffer_y` are `None` when `av` has no such attribute; `data` holds
   * `Df_dataset`/`L_dataset`/`A_dataset` and `con`/`tst`/`poi` as the last
   * load returned them, and `tst`, `poi` are the attributes as the static
   * visualisations read them (set by the GUI before any load);
   * `printed` is `_moving_objects_printed` (absent reads as False).
   */
  datatype AvState = AvState(
    toggles: Toggles, bufferX: Option<int>, bufferY: Option<int>, active: Active,
    datasetName: string, datasetNameExclusive: string, data: Option<Loaded>, tst: int, poi: int, printed: bool)

  // ---------------------------------------------------------------------------
  // The world

  /** What the run makes observable besides `av` and the files. */
  datatype Event =
    | Entered(variant: Variant)                                    // a variant's banner
    | Ran(name: string, dataset: string, active: set<Variant>)   // a module body executed
    | ImportWarning(name: string)                                // an ImportError reported
    | Caught(variant: Variant, error: Error)                       // an exception reported and swallowed
    | Completed                                                    // the completion report

  /**
   * `available` are the modules present on the import path, `loaded` the
   * modules in `sys.modules`, `bound` the module names bound in the
   * namespace of N_Moving_Objects (it survives a reload of that module).
   */
  datatype Host = Host(
    fs: FileSystem, env: Env, available: set<string>, loaded: set<string>, bound: set<string>, log: seq<Event>)

  datatype World = World(av: AvState, host: Host)

  /** The world after a piece of code, and the exception it raised, if any. */
  datatype Outcome = Outcome(world: World, error: Option<Error>)

  function Log(w: World, e: Event): (w': World)
    ensures w'.av == w.av && w'.host.log == w.host.log + [e]
  {
    w.(host := w.host.(log := w.host.log + [e]))
  }

  function WithAv(w: World, av: AvState): World {
    w.(av := av)
  }

  /** The event of executing module m's body in world w. */
  function RanIn(w: World, m: string): Event {
    Ran(m, if m == BUFFER_MODULE then BufferTransform.InputPath(w.host.env, w.av.datasetName) else w.av.datasetName,
        ActiveSet(w.av.active))
  }

  // ---------------------------------------------------------------------------
  // Quiet code: it leaves `av` alone and only logs module executions and warnings

  /** Event e is a module execution that saw the flags `active`, or an import warning. */
  predicate QuietEvent(e: Event, active: set<Variant>) {
    (e.Ran? && e.active == active) || e.ImportWarning?
  }

  /**
   * From w to w' nothing but the files and the module cache changed, and the
   * log grew by quiet events that saw w's flags.
   */
  predicate Quiet(w: World, w': World) {
    && w'.av == w.av && w'.host.env == w.host.env && w'.host.available == w.host.available
    && w.host.log <= w'.host.log
    && forall i :: |w.host.log| <= i < |w'.host.log| ==> QuietEvent(w'.host.log[i], ActiveSet(w.av.active))
  }

  lemma QuietTrans(w1: World, w2: World, w3: World)
    requires Quiet(w1, w2) && Quiet(w2, w3)
    ensures Quiet(w1, w3)
  {
    forall i | |w1.host.log| <= i < |w3.host.log|
      ensures QuietEvent(w3.host.log[i], ActiveSet(w1.av.active))
    {
      if i < |w2.host.log| {
        assert w3.host.log[i] == w2.host.log[i];
      }
    }
  }

  // ---------------------------------------------------------------------------
  // import and reload

  /**
   * What the body of a static visualisation raises when it runs: reading
   * `av.dataset_name`, then drawing every configuration with `av.poi`
   * points and `av.tst` timestamps.
   */
  function PlotRun(w: World, m: string): (e: Option<Error>)
    requires IsPlot(m)
    ensures Plots.PlotSamples(w.host.fs, w.host.env.cwd, w.av.datasetName).Err? ==>
      e == Some(Plots.PlotSamples(w.host.fs, w.host.env.cwd, w.av.datasetName).error)
    ensures Plots.PlotSamples(w.host.fs, w.host.env.cwd, w.av.datasetName).Ok? ==>
      var rows := Plots.PlotSamples(w.host.fs, w.host.env.cwd, w.av.datasetName).value;
      e == if m == STATIC_ABSOLUTE then StaticAbsolute.PlotFailure(rows, w.av.poi, w.av.tst) else TennisCourt.PlotFailure(rows, w.av.poi, w.av.tst)
  {
    match Plots.PlotSamples(w.host.fs, w.host.env.cwd, w.av.datasetName)
    case Err(e) => Some(e)
    case Ok(rows) =>
      if m == STATIC_ABSOLUTE then StaticAbsolute.PlotFailure(rows, w.av.poi, w.av.tst)
      else TennisCourt.PlotFailure(rows, w.av.poi, w.av.tst)
  }

  /**
   * `import m`: a cached module only gets its name bound; a missing one
   * raises ImportError; otherwise its body runs, and only a body that
   * completes leaves the module in the cache. N_T_OB's body is the buffer
   * transform, those of the static visualisations are their drawing loops;
   * the other bodies are opaque.
   */
  function Import(w: World, m: string): (o: Outcome)
    ensures o.error.None? ==> m in o.world.host.loaded && m in o.world.host.bound
    ensures o.error.Some? ==> o.world == w
    ensures o.error.Some? && Opaque(m) ==> o.error.value == ModuleNotFound(m)
    ensures o.error.Some? && IsPlot(m) ==>
      if m in w.host.available then m !in w.host.loaded && o.error == PlotRun(w, m) else o.error.value == ModuleNotFound(m)
    ensures IsPlot(m) && m !in w.host.loaded && m in w.host.available ==> o.error == PlotRun(w, m)
    ensures Quiet(w, o.world)
    ensures m != BUFFER_MODULE ==> o.world.host.fs == w.host.fs
    ensures o.world.host.loaded == w.host.loaded + (if o.error.None? then {m} else {})
    ensures o.world.host.bound == w.host.bound + (if o.error.None? then {m} else {})
  {
    var h := w.host;
    if m in h.loaded then Outcome(w.(host := h.(bound := h.bound + {m})), None)
    else if m !in h.available then Outcome(w, Some(ModuleNotFound(m)))
    else if m == BUFFER_MODULE then
      match BufferTransform.BufferPrep(w.av.bufferX, w.av.bufferY, w.av.datasetName, h.env, h.fs)
      case Err(e) => Outcome(w, Some(e))
      case Ok(fs') =>
        Outcome(w.(host := h.(fs := fs', loaded := h.loaded + {m}, bound := h.bound + {m}, log := h.log + [RanIn(w, m)])), None)
    else if IsPlot(m) && PlotRun(w, m).Some? then Outcome(w, PlotRun(w, m))
    else
      Outcome(w.(host := h.(loaded := h.loaded + {m}, bound := h.bound + {m}, log := h.log + [RanIn(w, m)])), None)
  }

  /** `importlib.reload(m)`: NameError unless the name was bound by an earlier import; otherwise the body runs again. */
  function Reload(w: World, m: string): (o: Outcome)
    ensures m !in w.host.bound <==> o == Outcome(w, Some(NameNotBound(m)))
    ensures m in w.host.bound ==> o == Outcome(Log(w, RanIn(w, m)), None)
  {
    if m !in w.host.bound then Outcome(w, Some(NameNotBound(m)))
    else Outcome(Log(w, RanIn(w, m)), None)
  }

  /** `try: import m` / `except ImportError: print(...)` */
  function ImportOrWarn(w: World, m: string): (o: Outcome)
    ensures m != BUFFER_MODULE ==> o.world.host.fs == w.host.fs
    ensures Opaque(m) ==> o.error.None?
    ensures IsPlot(m) ==> o.error == if m !in w.host.loaded && m in w.host.available then PlotRun(w, m) else None
    ensures IsPlot(m) && o.error.Some? ==> o.world == w
    ensures Quiet(w, o.world)
    ensures m != BUFFER_MODULE && o.error.None? ==>
      o.world.host.bound == w.host.bound + (if m in w.host.loaded || m in w.host.available then {m} else {})
    ensures m != BUFFER_MODULE && o.error.None? ==>
      o.world.host.loaded == w.host.loaded + (if m in w.host.loaded || m in w.host.available then {m} else {})
  {
    var o := Import(w, m);
    if o.error.Some? && o.error.value.ModuleNotFound? then Outcome(Log(w, ImportWarning(m)), None) else o
  }

  /** The modules of the enabled stages among `stages`. */
  function EnabledModules(t: Toggles, stages: seq<Stage>): (ms: set<string>)
    ensures forall m :: m in ms <==> exists s :: s in stages && StageToggle(t, s) == 1 && StageModule(s) == m
  {
    if stages == [] then {}
    else (if StageToggle(t, stages[0]) == 1 then {StageModule(stages[0])} else {}) + EnabledModules(t, stages[1..])
  }

  /**
   * The guarded `import` of each enabled stage, in order (lines 125-151).
   * It never raises, and afterwards exactly the enabled stages that were
   * cached or present are bound.
   */
  function ImportStages(w: World, stages: seq<Stage>): (o: Outcome)
    ensures o.error.None?
    ensures Quiet(w, o.world) && o.world.host.fs == w.host.fs
    ensures o.world.host.bound ==
      w.host.bound + (EnabledModules(w.av.toggles, stages) * (w.host.loaded + w.host.available))
    decreases |stages|
  {
    if stages == [] then Outcome(w, None)
    else if StageToggle(w.av.toggles, stages[0]) != 1 then ImportStages(w, stages[1..])
    else
      var m := StageModule(stages[0]);
      StageIsOpaque(stages[0]);
      var o := ImportOrWarn(w, m);
      var rest := ImportStages(o.world, stages[1..]);
      QuietTrans(w, o.world, rest.world);
      BoundAfterImport(w.host.bound, w.host.loaded, w.host.available, m, EnabledModules(w.av.toggles, stages[1..]));
      rest
  }

  /** One guarded import of m followed by the imports of `later`, as one set equation. */
  lemma BoundAfterImport<T>(bound: set<T>, loaded: set<T>, available: set<T>, m: T, later: set<T>)
    ensures var hit := if m in loaded || m in available then {m} else {};
      (bound + hit) + later * ((loaded + hit) + available) == bound + (({m} + later) * (loaded + available))
  {
  }

  /** The guarded `importlib.reload` of each enabled stage, in order; the first NameError aborts. */
  function ReloadStages(w: World, stages: seq<Stage>): (o: Outcome)
    ensures Quiet(w, o.world) && o.world.host.fs == w.host.fs && o.world.host.bound == w.host.bound
    ensures o.world.host.loaded == w.host.loaded
    ensures o.error.None? <==> EnabledModules(w.av.toggles, stages) <= w.host.bound
    decreases |stages|
  {
    if stages == [] then Outcome(w, None)
    else if StageToggle(w.av.toggles, stages[0]) != 1 then ReloadStages(w, stages[1..])
    else
      var o := Reload(w, StageModule(stages[0]));
      if o.error.Some? then o
      else
        var rest := ReloadStages(o.world, stages[1..]);
        QuietTrans(w, o.world, rest.world);
        rest
  }

  // ---------------------------------------------------------------------------
  // The four variants

  /** Banner and `*_active = 1`. */
  function Enter(w: World, v: Variant): (w': World)
    ensures Flag(w'.av.active, v) == 1 && forall u :: u != v ==> Flag(w'.av.active, u) == Flag(w.av.active, u)
    ensures w'.av == w.av.(active := w'.av.active)
    ensures w'.host == w.host.(log := w.host.log + [Entered(v)])
  {
    var w1 := Log(w, Entered(v));
    w1.(av := w1.av.(active := SetFlag(w1.av.active, v, 1)))
  }

  /** `*_active = 0`. */
  function Leave(w: World, v: Variant): (w': World)
    ensures Flag(w'.av.active, v) == 0 && forall u :: u != v ==> Flag(w'.av.active, u) == Flag(w.av.active, u)
    ensures w'.av == w.av.(active := w'.av.active) && w'.host == w.host
  {
    w.(av := w.av.(active := SetFlag(w.av.active, v, 0)))
  }

  /** Point `dataset_name` at `path`, `dataset_name_exclusive` at it without extension, and load it. */
  function SelectDataset(w: World, path: string): (o: Outcome)
    ensures o.world.host == w.host
    ensures o.error.Some? <==> ReadConfigCsv(w.host.fs, w.host.env.cwd, path).Err?
    ensures o.error.Some? ==>
      && o.error.value == ReadConfigCsv(w.host.fs, w.host.env.cwd, path).error
      && o.world.av == w.av.(datasetName := path, datasetNameExclusive := SplitExtRoot(path))
    ensures o.error.None? ==>
      var l := ReadConfigCsv(w.host.fs, w.host.env.cwd, path).value;
      o.world.av == w.av.(datasetName := path, datasetNameExclusive := SplitExtRoot(path), data := Some(l), tst := l.tst, poi := l.poi)
  {
    var w1 := w.(av := w.av.(datasetName := path, datasetNameExclusive := SplitExtRoot(path)));
    match ReadConfigCsv(w1.host.fs, w1.host.env.cwd, path)
    case Err(e) => Outcome(w1, Some(e))
    case Ok(l) => Outcome(w1.(av := w1.av.(data := Some(l), tst := l.tst, poi := l.poi)), None)
  }

  /** `<results>/N_C_PDPg_fundamental_Dataset.csv` */
  function FundamentalPath(env: Env): string {
    Join(ResultsDir(env), FUNDAMENTAL_NAME)
  }

  /** Lines 91-154: copy the dataset into the results directory, load it, import the stages. */
  function FundamentalStep(w: World): Outcome {
    var w1 := Enter(w, Fundamental);
    var h := w1.host;
    var path := FundamentalPath(h.env);
    var copied :=
      if AbsPath(h.env.cwd, w1.av.datasetName) == AbsPath(h.env.cwd, path) then Ok(h.fs)
      else CopyFile(h.fs, h.env.cwd, w1.av.datasetName, path);
    match copied
    case Err(e) => Outcome(w1, Some(e))
    case Ok(fs') =>
      var sel := SelectDataset(w1.(host := h.(fs := fs')), path);
      if sel.error.Some? then sel
      else
        var st := ImportStages(sel.world, STAGES);
        if st.error.Some? then st
        else Outcome(Leave(st.world, Fundamental), None)
  }

  /** The try body of the buffer variant (lines 165-205). */
  function BufferTry(w: World): Outcome {
    var imp := Import(w, BUFFER_MODULE);
    if imp.error.Some? then imp
    else
      var path := Join(ResultsDir(imp.world.host.env), BufferTransform.OUTPUT_NAME);
      if !Exists(imp.world.host.fs, imp.world.host.env.cwd, path) then Outcome(imp.world, Some(FileNotFound(path)))
      else
        var sel := SelectDataset(imp.world, path);
        if sel.error.Some? then sel else ReloadStages(sel.world, STAGES)
  }

  /** Lines 158-218: every exception of the try body is reported and swallowed. */
  function BufferStep(w: World): (o: Outcome)
    ensures o.error.None?
  {
    var t := BufferTry(Enter(w, Buffer));
    var w2 := if t.error.Some? then Log(t.world, Caught(Buffer, t.error.value)) else t.world;
    Outcome(Leave(w2, Buffer), None)
  }

  /** Lines 222-261: re-select the fundamental copy and reload the stages; nothing is caught. */
  function RoughStep(w: World): Outcome {
    var w1 := Enter(w, Rough);
    var sel := SelectDataset(w1, FundamentalPath(w1.host.env));
    if sel.error.Some? then sel
    else
      var st := ReloadStages(sel.world, STAGES);
      if st.error.Some? then st else Outcome(Leave(st.world, Rough), None)
  }

  /** The try body of the buffer+rough variant (lines 272-311). */
  function BufferRoughTry(w: World): Outcome {
    var imp := Import(w, BUFFER_MODULE);
    if imp.error.Some? then imp
    else
      var h := imp.world.host;
      var inCwd := BufferTransform.OUTPUT_NAME;
      var inResults := Join(ResultsDir(h.env), BufferTransform.OUTPUT_NAME);
      var w1 :=
        if Exists(h.fs, h.env.cwd, inCwd) && inCwd != inResults
        then imp.world.(host := h.(fs := MoveFile(h.fs, h.env.cwd, inCwd, inResults)))
        else imp.world;
      var sel := SelectDataset(w1, inResults);
      if sel.error.Some? then sel else ReloadStages(sel.world, STAGES)
  }

  /** Lines 265-316: only ImportError is caught; any other exception leaves the flag set and propagates. */
  function BufferRoughStep(w: World): Outcome {
    var t := BufferRoughTry(Enter(w, BufferRough));
    if t.error.Some? && !t.error.value.ModuleNotFound? then t
    else
      var w2 := if t.error.Some? then Log(t.world, Caught(BufferRough, t.error.value)) else t.world;
      Outcome(Leave(w2, BufferRough), None)
  }

  /** Run variant v when its toggle is on. */
  function Gate(w: World, v: Variant): Outcome {
    if VariantToggle(w.av.toggles, v) != 1 then Outcome(w, None)
    else match v
      case Fundamental => FundamentalStep(w)
      case Buffer => BufferStep(w)
      case Rough => RoughStep(w)
      case BufferRough => BufferRoughStep(w)
  }

  /**
   * `if av.<toggle> == 1: try: import m except ImportError: ...` for a
   * static visualisation: a missing module is only a warning, but whatever
   * its body raises propagates.
   */
  function StaticImport(w: World, toggle: int, m: string): (o: Outcome)
    requires IsPlot(m)
    ensures o.error.Some? <==> toggle == 1 && m !in w.host.loaded && m in w.host.available && PlotRun(w, m).Some?
    ensures o.error.Some? ==> o == Outcome(w, PlotRun(w, m))
    ensures Quiet(w, o.world) && o.world.host.fs == w.host.fs
    ensures o.error.None? ==> o.world.host.loaded == w.host.loaded + (if toggle == 1 && m in w.host.available then {m} else {})
  {
    if toggle != 1 then Outcome(w, None) else ImportOrWarn(w, m)
  }

  /** The order in which the module body visits the variants. */
  const VARIANTS: seq<Variant> := [Fundamental, Buffer, Rough, BufferRough]

  /** The gated variants `vs` one after the other; the first exception that escapes ends the run. */
  function RunVariants(w: World, vs: seq<Variant>): Outcome
    decreases |vs|
  {
    if vs == [] then Outcome(w, None)
    else
      var o := Gate(w, vs[0]);
      if o.error.Some? then o else RunVariants(o.world, vs[1..])
  }

  /** One execution of the module body (lines 22-327). */
  function Body(w: World): Outcome {
    var alreadyPrinted := w.av.printed;
    var s1 := StaticImport(w, w.av.toggles.staticAbsolute, STATIC_ABSOLUTE);
    if s1.error.Some? then s1
    else
      var s2 := StaticImport(s1.world, w.av.toggles.tennisCourt, TENNIS_COURT);
      if s2.error.Some? then s2
      else
        var v := RunVariants(s2.world, VARIANTS);
        if v.error.Some? || alreadyPrinted then v
        else
          var w1 := Log(v.world, Completed);
          Outcome(w1.(av := w1.av.(printed := true)), None)
  }

  /**
   * What the GUI's worker does with the runner: `import N_Moving_Objects`
   * (executes the body unless the module is cached) followed by
   * `importlib.reload(N_Moving_Objects)` (executes it again). An uncached
   * import runs the body in a fresh namespace, so no stage name is bound
   * yet; the reload keeps the namespace the import filled.
   */
  function RunPipeline(w: World): Outcome {
    if RUNNER in w.host.loaded then Body(w)
    else
      var first := Body(w.(host := w.host.(bound := {})));
      if first.error.Some? then first
      else
        var w1 := first.world.(host := first.world.host.(loaded := first.world.host.loaded + {RUNNER}));
        Body(w1)
  }
}
