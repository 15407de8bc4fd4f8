/**
 * The module body of N_Moving_Objects.py as the statements it is: the
 * settings module `av` is an object whose attributes the variants assign
 * one by one, and the interpreter holds the files, the module cache, the
 * runner's namespace and the log. Every method is proved to leave exactly
 * the world the corresponding function of MovingObjects describes, so the
 * facts of PipelineFacts and VariantOutcomes hold of these statements.
 */
module Runtime {
  import opened Wrappers
  import opened Files
  import opened Loader
  import opened MovingObjects
  import BufferTransform
  import Plots
  import StaticAbsolute
  import TennisCourt

  /** The settings module `av`: the attributes the module body reads and writes. */
  class Av {
    var toggles: Toggles
    var bufferX: Option<int>
    var bufferY: Option<int>
    var fundamentalActive: int
    var bufferActive: int
    var roughActive: int
    var bufferRoughActive: int
    var datasetName: string
    var datasetNameExclusive: string
    var data: Option<Loaded>
    var tst: int
    var poi: int
    var printed: bool

    function State(): AvState
      reads this
    {
      AvState(toggles, bufferX, bufferY,
              Active(fundamentalActive, bufferActive, roughActive, bufferRoughActive),
              datasetName, datasetNameExclusive, data, tst, poi, printed)
    }

    constructor (s: AvState)
      ensures State() == s
    {
      toggles, bufferX, bufferY := s.toggles, s.bufferX, s.bufferY;
      fundamentalActive, bufferActive := s.active.fundamental, s.active.buffer;
      roughActive, bufferRoughActive := s.active.rough, s.active.bufferRough;
      datasetName, datasetNameExclusive, data, printed := s.datasetName, s.datasetNameExclusive, s.data, s.printed;
      tst, poi := s.tst, s.poi;
    }

    /** `av.dataset_name = path` and `av.dataset_name_exclusive = os.path.splitext(path)[0]` */
    method PointAt(path: string)
      modifies this
      ensures State() == old(State()).(datasetName := path, datasetNameExclusive := SplitExtRoot(path))
    {
      datasetName, datasetNameExclusive := path, SplitExtRoot(path);
    }

    /** `av.Df_dataset`, `av.tst` and `av.poi` after a load */
    method Load(l: Loaded)
      modifies this
      ensures State() == old(State()).(data := Some(l), tst := l.tst, poi := l.poi)
    {
      data, tst, poi := Some(l), l.tst, l.poi;
    }

    /** `av.PDPg_<v>_active = x` */
    method SetActive(v: Variant, x: int)
      modifies this
      ensures State() == old(State()).(active := SetFlag(old(State()).active, v, x))
    {
      match v
      case Fundamental => fundamentalActive := x;
      case Buffer => bufferActive := x;
      case Rough => roughActive := x;
      case BufferRough => bufferRoughActive := x;
    }
  }

  /** The interpreter the module body runs in. */
  class Interpreter {
    const av: Av
    var fs: FileSystem
    var env: Env
    var available: set<string>
    var loaded: set<string>
    var bound: set<string>
    var log: seq<Event>

    function Host(): Host
      reads this
    {
      MovingObjects.Host(fs, env, available, loaded, bound, log)
    }

    function World(): World
      reads this, av
    {
      MovingObjects.World(av.State(), Host())
    }

    constructor (a: Av, h: MovingObjects.Host)
      ensures av == a && Host() == h
    {
      av := a;
      fs, env, available, loaded, bound, log := h.fs, h.env, h.available, h.loaded, h.bound, h.log;
    }

    method Emit(e: Event)
      modifies this
      ensures World() == Log(old(World()), e)
    {
      log := log + [e];
    }

    /** `import m` */
    method Import(m: string) returns (err: Option<Error>)
      modifies this
      ensures World() == MovingObjects.Import(old(World()), m).world
      ensures err == MovingObjects.Import(old(World()), m).error
    {
      if m in loaded {
        bound := bound + {m};
        return None;
      }
      if m !in available {
        return Some(ModuleNotFound(m));
      }
      var ran := RanIn(World(), m);
      if m == BUFFER_MODULE {
        var prep := BufferTransform.RunBufferPrep(av.bufferX, av.bufferY, av.datasetName, env, fs);
        if prep.Err? {
          return Some(prep.error);
        }
        fs := prep.value;
      } else if IsPlot(m) {
        var failure := RunPlot(m);
        if failure.Some? {
          return failure;
        }
      }
      loaded := loaded + {m};
      bound := bound + {m};
      log := log + [ran];
      err := None;
    }

    /** The body of a static visualisation: read `av.dataset_name`, then draw every configuration. */
    method RunPlot(m: string) returns (err: Option<Error>)
      requires IsPlot(m)
      ensures err == PlotRun(World(), m)
    {
      var table := Plots.PlotSamples(fs, env.cwd, av.datasetName);
      if table.Err? {
        return Some(table.error);
      }
      if m == STATIC_ABSOLUTE {
        var figures;
        figures, err := StaticAbsolute.DrawAll(table.value, av.poi, av.tst);
      } else {
        var courts;
        courts, err := TennisCourt.DrawAll(table.value, av.poi, av.tst);
      }
    }

    /** `importlib.reload(m)` */
    method Reload(m: string) returns (err: Option<Error>)
      modifies this
      ensures World() == MovingObjects.Reload(old(World()), m).world
      ensures err == MovingObjects.Reload(old(World()), m).error
    {
      if m !in bound {
        return Some(NameNotBound(m));
      }
      Emit(RanIn(World(), m));
      err := None;
    }

    /** `try: import m` / `except ImportError: print(...)` */
    method ImportOrWarn(m: string) returns (err: Option<Error>)
      modifies this
      ensures World() == MovingObjects.ImportOrWarn(old(World()), m).world
      ensures err == MovingObjects.ImportOrWarn(old(World()), m).error
    {
      ghost var w := World();
      err := Import(m);
      if err.Some? && err.value.ModuleNotFound? {
        assert World() == w;
        Emit(ImportWarning(m));
        err := None;
      }
    }

    /** `if av.<s> == 1: try: import <s> except ImportError: ...`, and the imports of the stages after it. */
    method ImportStage(s: Stage, ghost rest: seq<Stage>)
      modifies this
      ensures MovingObjects.ImportStages(old(World()), [s] + rest) == MovingObjects.ImportStages(World(), rest)
    {
      assert ([s] + rest)[0] == s && ([s] + rest)[1..] == rest;
      if StageToggle(av.toggles, s) == 1 {
        var _ := ImportOrWarn(StageModule(s));
      }
    }

    /** Lines 125-151: the guarded imports of the five stages. */
    method ImportStages()
      modifies this
      ensures World() == MovingObjects.ImportStages(old(World()), STAGES).world
    {
      assert STAGES == [Pdp] + [HeatMap, HClust, Mds, TopK];
      assert [HeatMap, HClust, Mds, TopK] == [HeatMap] + [HClust, Mds, TopK];
      assert [HClust, Mds, TopK] == [HClust] + [Mds, TopK];
      assert [Mds, TopK] == [Mds] + [TopK];
      assert [TopK] == [TopK] + [];
      ImportStage(Pdp, [HeatMap, HClust, Mds, TopK]);
      ImportStage(HeatMap, [HClust, Mds, TopK]);
      ImportStage(HClust, [Mds, TopK]);
      ImportStage(Mds, [TopK]);
      ImportStage(TopK, []);
    }

    /** `if av.<s> == 1: importlib.reload(<s>)`, on whose success the reloads of the stages after it follow. */
    method ReloadStage(s: Stage, ghost rest: seq<Stage>) returns (err: Option<Error>)
      modifies this
      ensures err.Some? ==> MovingObjects.ReloadStages(old(World()), [s] + rest) == Outcome(World(), err)
      ensures err.None? ==> MovingObjects.ReloadStages(old(World()), [s] + rest) == MovingObjects.ReloadStages(World(), rest)
    {
      assert ([s] + rest)[0] == s && ([s] + rest)[1..] == rest;
      err := None;
      if StageToggle(av.toggles, s) == 1 {
        err := Reload(StageModule(s));
      }
    }

    /** The reloads of the five stages; the first NameError propagates. */
    method ReloadStages() returns (err: Option<Error>)
      modifies this
      ensures World() == MovingObjects.ReloadStages(old(World()), STAGES).world
      ensures err == MovingObjects.ReloadStages(old(World()), STAGES).error
    {
      assert STAGES == [Pdp] + [HeatMap, HClust, Mds, TopK];
      assert [HeatMap, HClust, Mds, TopK] == [HeatMap] + [HClust, Mds, TopK];
      assert [HClust, Mds, TopK] == [HClust] + [Mds, TopK];
      assert [Mds, TopK] == [Mds] + [TopK];
      assert [TopK] == [TopK] + [];
      err := ReloadStage(Pdp, [HeatMap, HClust, Mds, TopK]);
      if err.Some? { return; }
      err := ReloadStage(HeatMap, [HClust, Mds, TopK]);
      if err.Some? { return; }
      err := ReloadStage(HClust, [Mds, TopK]);
      if err.Some? { return; }
      err := ReloadStage(Mds, [TopK]);
      if err.Some? { return; }
      err := ReloadStage(TopK, []);
    }

    /** Banner and `av.PDPg_<v>_active = 1`. */
    method Enter(v: Variant)
      modifies this, av
      ensures World() == MovingObjects.Enter(old(World()), v)
    {
      Emit(Entered(v));
      av.SetActive(v, 1);
    }

    /** `av.dataset_name = path`, `av.dataset_name_exclusive = splitext(path)[0]`, then `read_config_csv(path)`. */
    method SelectDataset(path: string) returns (err: Option<Error>)
      modifies av
      ensures World() == MovingObjects.SelectDataset(old(World()), path).world
      ensures err == MovingObjects.SelectDataset(old(World()), path).error
    {
      av.PointAt(path);
      var loaded := ReadConfigCsv(fs, env.cwd, path);
      if loaded.Err? {
        return Some(loaded.error);
      }
      av.Load(loaded.value);
      err := None;
    }

    /** Lines 91-154. */
    method Fundamental() returns (err: Option<Error>)
      modifies this, av
      ensures World() == FundamentalStep(old(World())).world
      ensures err == FundamentalStep(old(World())).error
    {
      Enter(MovingObjects.Fundamental);
      var path := FundamentalPath(env);
      if AbsPath(env.cwd, av.datasetName) != AbsPath(env.cwd, path) {
        var copied := CopyFile(fs, env.cwd, av.datasetName, path);
        if copied.Err? {
          return Some(copied.error);
        }
        fs := copied.value;
      }
      err := SelectDataset(path);
      if err.Some? {
        return;
      }
      ImportStages();
      av.SetActive(MovingObjects.Fundamental, 0);
    }

    /** The try body of the buffer variant (lines 165-205). */
    method BufferTry() returns (err: Option<Error>)
      modifies this, av
      ensures World() == MovingObjects.BufferTry(old(World())).world
      ensures err == MovingObjects.BufferTry(old(World())).error
    {
      err := Import(BUFFER_MODULE);
      if err.Some? {
        return;
      }
      var path := Join(ResultsDir(env), BufferTransform.OUTPUT_NAME);
      if !Exists(fs, env.cwd, path) {
        return Some(FileNotFound(path));
      }
      err := SelectDataset(path);
      if err.Some? {
        return;
      }
      err := ReloadStages();
    }

    /** Lines 158-218: every exception is reported and swallowed. */
    method Buffer()
      modifies this, av
      ensures World() == BufferStep(old(World())).world
    {
      Enter(MovingObjects.Buffer);
      var err := BufferTry();
      if err.Some? {
        Emit(Caught(MovingObjects.Buffer, err.value));
      }
      av.SetActive(MovingObjects.Buffer, 0);
    }

    /** Lines 222-261. */
    method Rough() returns (err: Option<Error>)
      modifies this, av
      ensures World() == RoughStep(old(World())).world
      ensures err == RoughStep(old(World())).error
    {
      Enter(MovingObjects.Rough);
      err := SelectDataset(FundamentalPath(env));
      if err.Some? {
        return;
      }
      err := ReloadStages();
      if err.Some? {
        return;
      }
      av.SetActive(MovingObjects.Rough, 0);
    }

    /** The try body of the buffer+rough variant (lines 272-311). */
    method BufferRoughTry() returns (err: Option<Error>)
      modifies this, av
      ensures World() == MovingObjects.BufferRoughTry(old(World())).world
      ensures err == MovingObjects.BufferRoughTry(old(World())).error
    {
      err := Import(BUFFER_MODULE);
      if err.Some? {
        return;
      }
      var inCwd := BufferTransform.OUTPUT_NAME;
      var inResults := Join(ResultsDir(env), BufferTransform.OUTPUT_NAME);
      if Exists(fs, env.cwd, inCwd) && inCwd != inResults {
        fs := MoveFile(fs, env.cwd, inCwd, inResults);
      }
      err := SelectDataset(inResults);
      if err.Some? {
        return;
      }
      err := ReloadStages();
    }

    /** Lines 265-316: only ImportError is caught. */
    method BufferRough() returns (err: Option<Error>)
      modifies this, av
      ensures World() == BufferRoughStep(old(World())).world
      ensures err == BufferRoughStep(old(World())).error
    {
      Enter(MovingObjects.BufferRough);
      err := BufferRoughTry();
      if err.Some? && !err.value.ModuleNotFound? {
        return;
      }
      if err.Some? {
        Emit(Caught(MovingObjects.BufferRough, err.value));
      }
      av.SetActive(MovingObjects.BufferRough, 0);
      err := None;
    }

    /** `if av.PDPg_<v> == 1:` and the variant's block, on whose success the variants after it follow. */
    method Gate(v: Variant, ghost rest: seq<Variant>) returns (err: Option<Error>)
      modifies this, av
      ensures err.Some? ==> RunVariants(old(World()), [v] + rest) == Outcome(World(), err)
      ensures err.None? ==> RunVariants(old(World()), [v] + rest) == RunVariants(World(), rest)
    {
      assert ([v] + rest)[0] == v && ([v] + rest)[1..] == rest;
      err := None;
      if VariantToggle(av.toggles, v) == 1 {
        match v
        case Fundamental => err := Fundamental();
        case Buffer => Buffer();
        case Rough => err := Rough();
        case BufferRough => err := BufferRough();
      }
    }

    /** Lines 27-39: an optional plot import, whose ImportError is only a warning. */
    method StaticImport(toggle: int, m: string) returns (err: Option<Error>)
      requires IsPlot(m)
      modifies this
      ensures World() == MovingObjects.StaticImport(old(World()), toggle, m).world
      ensures err == MovingObjects.StaticImport(old(World()), toggle, m).error
    {
      err := None;
      if toggle == 1 {
        err := ImportOrWarn(m);
      }
    }

    /** Lines 91-316: the four variants in order, stopping at the first error that escapes. */
    method RunAllVariants() returns (err: Option<Error>)
      modifies this, av
      ensures RunVariants(old(World()), VARIANTS) == Outcome(World(), err)
    {
      assert VARIANTS == [MovingObjects.Fundamental] + [MovingObjects.Buffer, MovingObjects.Rough, MovingObjects.BufferRough];
      assert [MovingObjects.Buffer, MovingObjects.Rough, MovingObjects.BufferRough]
          == [MovingObjects.Buffer] + [MovingObjects.Rough, MovingObjects.BufferRough];
      assert [MovingObjects.Rough, MovingObjects.BufferRough] == [MovingObjects.Rough] + [MovingObjects.BufferRough];
      assert [MovingObjects.BufferRough] == [MovingObjects.BufferRough] + [];
      err := Gate(MovingObjects.Fundamental, [MovingObjects.Buffer, MovingObjects.Rough, MovingObjects.BufferRough]);
      if err.Some? { return; }
      err := Gate(MovingObjects.Buffer, [MovingObjects.Rough, MovingObjects.BufferRough]);
      if err.Some? { return; }
      err := Gate(MovingObjects.Rough, [MovingObjects.BufferRough]);
      if err.Some? { return; }
      err := Gate(MovingObjects.BufferRough, []);
    }

    /** One execution of the module body (lines 22-327). */
    method Body() returns (err: Option<Error>)
      modifies this, av
      ensures World() == MovingObjects.Body(old(World())).world
      ensures err == MovingObjects.Body(old(World())).error
    {
      var alreadyPrinted := av.printed;
      err := StaticImport(av.toggles.staticAbsolute, STATIC_ABSOLUTE);
      if err.Some? { return; }
      err := StaticImport(av.toggles.tennisCourt, TENNIS_COURT);
      if err.Some? { return; }
      err := RunAllVariants();
      if err.Some? { return; }
      if !alreadyPrinted {
        Emit(Completed);
        av.printed := true;
      }
    }

    /** The GUI's `import N_Moving_Objects` followed by `importlib.reload(N_Moving_Objects)`. */
    method RunPipeline() returns (err: Option<Error>)
      modifies this, av
      ensures World() == MovingObjects.RunPipeline(old(World())).world
      ensures err == MovingObjects.RunPipeline(old(World())).error
    {
      if RUNNER in loaded {
        err := Body();
        return;
      }
      bound := {};
      err := Body();
      if err.Some? {
        return;
      }
      loaded := loaded + {RUNNER};
      err := Body();
    }
  }
}
