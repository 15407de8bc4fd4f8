/**
 * What each variant of N_Moving_Objects leaves behind: which dataset
 * `dataset_name` points at, what was copied or created, what was loaded,
 * which module bodies ran and which exception escaped.
 */
module VariantOutcomes {
  import opened Wrappers
  import opened Files
  import opened Loader
  import opened MovingObjects
  import opened PipelineFacts
  import BufferTransform

  // ---------------------------------------------------------------------------
  // Stage runs

  /** The enabled stages among `stages`, in order. */
  function EnabledStages(t: Toggles, stages: seq<Stage>): (r: seq<Stage>)
    ensures forall s :: s in r <==> s in stages && StageToggle(t, s) == 1
  {
    if stages == [] then []
    else (if StageToggle(t, stages[0]) == 1 then [stages[0]] else []) + EnabledStages(t, stages[1..])
  }

  /** The log entries of the stage bodies `stages` run on `dataset` with the flags `active`. */
  function StageRuns(dataset: string, active: set<Variant>, stages: seq<Stage>): (r: seq<Event>)
    ensures |r| == |stages|
    ensures forall i :: 0 <= i < |stages| ==> r[i] == Ran(StageModule(stages[i]), dataset, active)
  {
    if stages == [] then [] else [Ran(StageModule(stages[0]), dataset, active)] + StageRuns(dataset, active, stages[1..])
  }

  /** A disabled first stage is skipped. */
  lemma ReloadSkip(w: World, stages: seq<Stage>)
    requires stages != [] && StageToggle(w.av.toggles, stages[0]) != 1
    ensures ReloadStages(w, stages) == ReloadStages(w, stages[1..])
    ensures EnabledStages(w.av.toggles, stages) == EnabledStages(w.av.toggles, stages[1..])
  {
  }

  /** An enabled, bound first stage logs its run and hands on to the rest. */
  lemma ReloadRun(w: World, stages: seq<Stage>)
    requires stages != [] && StageToggle(w.av.toggles, stages[0]) == 1
    requires StageModule(stages[0]) in w.host.bound
    ensures var e := Ran(StageModule(stages[0]), w.av.datasetName, ActiveSet(w.av.active));
      && ReloadStages(w, stages) == ReloadStages(Log(w, e), stages[1..])
      && EnabledStages(w.av.toggles, stages) == [stages[0]] + EnabledStages(w.av.toggles, stages[1..])
  {
    StageIsOpaque(stages[0]);
  }

  lemma StageRunsCons(dataset: string, active: set<Variant>, s: Stage, rest: seq<Stage>)
    ensures StageRuns(dataset, active, [s] + rest) == [Ran(StageModule(s), dataset, active)] + StageRuns(dataset, active, rest)
  {
    assert ([s] + rest)[1..] == rest;
  }

  lemma AppendAfter(log: seq<Event>, e: Event, runs: seq<Event>)
    ensures log + [e] + runs == log + ([e] + runs)
  {
  }

  /**
   * With every enabled stage bound, the reloads raise nothing, change
   * nothing but the log, and log one run per enabled stage, in order, on
   * the current dataset with the current flags.
   */
  lemma {:induction false} ReloadStagesLog(w: World, stages: seq<Stage>)
    requires EnabledModules(w.av.toggles, stages) <= w.host.bound
    ensures ReloadStages(w, stages).world.host.log ==
      w.host.log + StageRuns(w.av.datasetName, ActiveSet(w.av.active), EnabledStages(w.av.toggles, stages))
    decreases |stages|
  {
    var t := w.av.toggles;
    if stages != [] {
      assert EnabledModules(t, stages[1..]) <= EnabledModules(t, stages);
      var rest := EnabledStages(t, stages[1..]);
      if StageToggle(t, stages[0]) != 1 {
        ReloadSkip(w, stages);
        ReloadStagesLog(w, stages[1..]);
      } else {
        assert StageModule(stages[0]) in EnabledModules(t, stages);
        var e := Ran(StageModule(stages[0]), w.av.datasetName, ActiveSet(w.av.active));
        var w1 := Log(w, e);
        ReloadRun(w, stages);
        assert w1.host.bound == w.host.bound;
        ReloadStagesLog(w1, stages[1..]);
        StageRunsCons(w.av.datasetName, ActiveSet(w.av.active), stages[0], rest);
        AppendAfter(w.host.log, e, StageRuns(w.av.datasetName, ActiveSet(w.av.active), rest));
      }
    }
  }

  /**
   * The reloads of a variant whose enabled stages are all bound: nothing
   * raises, nothing but the log changes, and the log gains one run per
   * enabled stage, in order.
   */
  lemma ReloadStagesBound(w: World, stages: seq<Stage>)
    requires EnabledModules(w.av.toggles, stages) <= w.host.bound
    ensures var o := ReloadStages(w, stages);
      && o.error.None? && o.world.av == w.av
      && o.world.host == w.host.(log := w.host.log +
           StageRuns(w.av.datasetName, ActiveSet(w.av.active), EnabledStages(w.av.toggles, stages)))
  {
    ReloadStagesLog(w, stages);
  }

  /** A reload that fails names an enabled stage that was never bound. */
  lemma {:induction false} ReloadStagesError(w: World, stages: seq<Stage>)
    ensures var o := ReloadStages(w, stages);
      o.error.Some? ==>
        exists s :: s in stages && StageToggle(w.av.toggles, s) == 1 && StageModule(s) !in w.host.bound
                    && o.error == Some(NameNotBound(StageModule(s)))
    decreases |stages|
  {
    var t := w.av.toggles;
    if stages != [] {
      if StageToggle(t, stages[0]) != 1 {
        ReloadStagesError(w, stages[1..]);
      } else {
        var m := StageModule(stages[0]);
        var o := Reload(w, m);
        if o.error.None? {
          ReloadStagesError(o.world, stages[1..]);
        }
      }
    }
  }

  // ---------------------------------------------------------------------------
  // Loading depends on the file's lines only

  /** Two paths holding the same lines load alike, apart from the path named in an error. */
  lemma LoadSameLines(fs1: FileSystem, fs2: FileSystem, cwd: string, p1: string, p2: string)
    requires Exists(fs1, cwd, p1) && Exists(fs2, cwd, p2)
    requires fs1[AbsPath(cwd, p1)] == fs2[AbsPath(cwd, p2)]
    ensures ReadConfigCsv(fs1, cwd, p1).Ok? <==> ReadConfigCsv(fs2, cwd, p2).Ok?
    ensures ReadConfigCsv(fs1, cwd, p1).Ok? ==> ReadConfigCsv(fs1, cwd, p1) == ReadConfigCsv(fs2, cwd, p2)
  {
    ReadConfigOkIff(fs1, cwd, p1);
    ReadConfigOkIff(fs2, cwd, p2);
  }

  /** The file name root of the fundamental copy. */
  const FUNDAMENTAL_STEM := "N_C_PDPg_fundamental_Dataset"

  /** `os.path.splitext` of the fundamental copy drops just its `.csv`. */
  lemma FundamentalRoot(env: Env)
    ensures SplitExtRoot(FundamentalPath(env)) == Join(ResultsDir(env), FUNDAMENTAL_STEM)
  {
    assert FUNDAMENTAL_NAME == FUNDAMENTAL_STEM + "." + "csv";
    PlainStem(FUNDAMENTAL_STEM);
    StripExtension(ResultsDir(env), FUNDAMENTAL_STEM, "csv");
  }

  /** A name made of letters and underscores holds no slash and no dot. */
  lemma PlainStem(stem: string)
    requires forall k :: 0 <= k < |stem| ==> stem[k] == '_' || 'a' <= stem[k] <= 'z' || 'A' <= stem[k] <= 'Z'
    ensures '/' !in stem && '.' !in stem
  {
  }

  // ---------------------------------------------------------------------------
  // Fundamental

  /**
   * Lines 91-154. The copy into the results directory happens only when the
   * absolute paths differ, and then needs the source; afterwards
   * `dataset_name` is the copy, `dataset_name_exclusive` the copy without
   * `.csv`, and the data are the copy's (which equal the source's). The
   * stage imports never raise: the run fails only when copying or loading
   * does.
   */
  lemma FundamentalOutcome(w: World)
    ensures var o := FundamentalStep(w);
      var h := w.host;
      var src := w.av.datasetName;
      var path := FundamentalPath(h.env);
      var same := AbsPath(h.env.cwd, src) == AbsPath(h.env.cwd, path);
      && (same ==> o.world.host.fs == h.fs)
      && (!same && !Exists(h.fs, h.env.cwd, src) ==>
            o.error == Some(FileNotFound(src)) && o.world.host.fs == h.fs && o.world.av.datasetName == src)
      && (Exists(h.fs, h.env.cwd, src) ==> (o.error.None? <==> ReadConfigCsv(h.fs, h.env.cwd, src).Ok?))
      && (o.error.None? ==>
            && o.world.av.datasetName == path
            && o.world.av.datasetNameExclusive == Join(ResultsDir(h.env), FUNDAMENTAL_STEM)
            && Exists(o.world.host.fs, h.env.cwd, path)
            && o.world.host.fs[AbsPath(h.env.cwd, path)] == h.fs[AbsPath(h.env.cwd, src)]
            && o.world.av.data == Some(ReadConfigCsv(h.fs, h.env.cwd, src).value)
            && o.world.host.bound == h.bound + EnabledModules(w.av.toggles, STAGES) * (h.loaded + h.available)
            && Flag(o.world.av.active, Fundamental) == 0)
  {
    var o := FundamentalStep(w);
    var w1 := Enter(w, Fundamental);
    var h := w1.host;
    var src := w.av.datasetName;
    var path := FundamentalPath(h.env);
    var same := AbsPath(h.env.cwd, src) == AbsPath(h.env.cwd, path);
    var copied := if same then Ok(h.fs) else CopyFile(h.fs, h.env.cwd, src, path);
    FundamentalRoot(h.env);
    if copied.Ok? {
      var fs' := copied.value;
      var w2 := w1.(host := h.(fs := fs'));
      var sel := SelectDataset(w2, path);
      if Exists(h.fs, h.env.cwd, src) {
        assert Exists(fs', h.env.cwd, path) && fs'[AbsPath(h.env.cwd, path)] == h.fs[AbsPath(h.env.cwd, src)];
        LoadSameLines(h.fs, fs', h.env.cwd, src, path);
      }
      if sel.error.None? {
        var st := ImportStages(sel.world, STAGES);
        assert o == Outcome(Leave(st.world, Fundamental), None);
      }
    }
  }

  // ---------------------------------------------------------------------------
  // Rough

  /**
   * Lines 222-261. Rough re-selects the fundamental copy whatever the
   * previous variants did, loads it, and reloads the enabled stages; it
   * fails exactly when the copy does not load or an enabled stage was never
   * bound, and a missing copy gives FileNotFoundError naming it.
   */
  lemma RoughOutcome(w: World)
    ensures var o := RoughStep(w);
      var h := w.host;
      var path := FundamentalPath(h.env);
      var load := ReadConfigCsv(h.fs, h.env.cwd, path);
      && o.world.av.datasetName == path
      && o.world.av.datasetNameExclusive == Join(ResultsDir(h.env), FUNDAMENTAL_STEM)
      && o.world.host.fs == h.fs && o.world.host.bound == h.bound
      && (!Exists(h.fs, h.env.cwd, path) ==> o.error == Some(FileNotFound(path)))
      && (o.error.None? <==> load.Ok? && EnabledModules(w.av.toggles, STAGES) <= h.bound)
      && o.world.av.data == (if load.Ok? then Some(load.value) else w.av.data)
      && (o.error.None? ==>
            && o.world.host.log == h.log + [Entered(Rough)] +
                 StageRuns(path, ActiveSet(w.av.active) + {Rough}, EnabledStages(w.av.toggles, STAGES))
            && o.world.av.active == w.av.active.(rough := 0))
  {
    var w1 := Enter(w, Rough);
    var path := FundamentalPath(w.host.env);
    var sel := SelectDataset(w1, path);
    FundamentalRoot(w.host.env);
    ActiveSetOfSetFlag(w.av.active, Rough, 1);
    if sel.error.None? && EnabledModules(w.av.toggles, STAGES) <= w.host.bound {
      assert sel.world.host == w1.host && sel.world.av.toggles == w.av.toggles;
      ReloadStagesBound(sel.world, STAGES);
      assert w1.host.log == w.host.log + [Entered(Rough)];
    }
  }

  // ---------------------------------------------------------------------------
  // The buffer transform through `import N_T_OB`

  /** Line 272: once N_T_OB is cached, `import N_T_OB` rebinds the name and neither writes a file nor runs anything. */
  lemma BufferCached(w: World)
    requires BUFFER_MODULE in w.host.loaded
    ensures var o := Import(w, BUFFER_MODULE);
      o.error.None? && o.world.av == w.av && o.world.host.fs == w.host.fs && o.world.host.log == w.host.log
  {
  }

  /**
   * The first `import N_T_OB` runs the transform on the dataset named by
   * AV_DATASET (or `av.dataset_name` when it is unset), not necessarily on
   * the current `dataset_name`; its failure is the import's exception.
   */
  lemma BufferFresh(w: World)
    requires BUFFER_MODULE !in w.host.loaded && BUFFER_MODULE in w.host.available
    ensures var o := Import(w, BUFFER_MODULE);
      var prep := BufferTransform.BufferPrep(w.av.bufferX, w.av.bufferY, w.av.datasetName, w.host.env, w.host.fs);
      && (o.error.None? <==> prep.Ok?)
      && (prep.Err? ==> o.error == Some(prep.error) && o.world == w)
      && (prep.Ok? ==>
            && o.world.host.fs == prep.value
            && o.world.host.log ==
                 w.host.log + [Ran(BUFFER_MODULE, BufferTransform.InputPath(w.host.env, w.av.datasetName), ActiveSet(w.av.active))])
  {
  }

  /** Where the buffer variants expect the transform's artifact. */
  function BufferArtifact(env: Env): string {
    Join(ResultsDir(env), BufferTransform.OUTPUT_NAME)
  }

  /**
   * Lines 169-170, 210-212: with the transform cached and its artifact
   * missing, the buffer variant reports FileNotFoundError and leaves
   * `dataset_name`, the data and the files as they were.
   */
  lemma BufferMissingArtifact(w: World)
    requires BUFFER_MODULE in w.host.loaded
    requires !Exists(w.host.fs, w.host.env.cwd, BufferArtifact(w.host.env))
    ensures var o := BufferStep(w);
      && o.error.None?
      && o.world.av == w.av.(active := w.av.active.(buffer := 0))
      && o.world.host.fs == w.host.fs
      && o.world.host.log == w.host.log + [Entered(Buffer), Caught(Buffer, FileNotFound(BufferArtifact(w.host.env)))]
  {
    var w1 := Enter(w, Buffer);
    BufferCached(w1);
  }

  /**
   * A missing input file of the transform: the buffer variant swallows the
   * FileNotFoundError and clears its flag, the buffer+rough variant lets it
   * escape with its flag still set.
   */
  lemma BufferMissingInput(w: World)
    requires BUFFER_MODULE !in w.host.loaded && BUFFER_MODULE in w.host.available
    requires !Exists(w.host.fs, w.host.env.cwd, BufferTransform.InputPath(w.host.env, w.av.datasetName))
    ensures var input := BufferTransform.InputPath(w.host.env, w.av.datasetName);
      var b := BufferStep(w);
      var br := BufferRoughStep(w);
      && b.error.None? && b.world.av == w.av.(active := w.av.active.(buffer := 0)) && b.world.host.fs == w.host.fs
      && b.world.host.log == w.host.log + [Entered(Buffer), Caught(Buffer, FileNotFound(input))]
      && br.error == Some(FileNotFound(input)) && br.world.av == w.av.(active := w.av.active.(bufferRough := 1))
      && br.world.host.fs == w.host.fs && br.world.host.log == w.host.log + [Entered(BufferRough)]
  {
    BufferFresh(Enter(w, Buffer));
    BufferFresh(Enter(w, BufferRough));
  }

  /** The file name root of the buffer artifact. */
  const BUFFER_STEM := "N_C_PDPg_buffer_Dataset"

  lemma BufferRoot(env: Env)
    ensures SplitExtRoot(BufferArtifact(env)) == Join(ResultsDir(env), BUFFER_STEM)
  {
    assert BufferTransform.OUTPUT_NAME == BUFFER_STEM + "." + "csv";
    PlainStem(BUFFER_STEM);
    StripExtension(ResultsDir(env), BUFFER_STEM, "csv");
  }

  /**
   * Lines 165-205: an error-free buffer variant analyses the artifact in
   * the results directory, loaded as it stands after the import.
   */
  lemma BufferOutcome(w: World)
    ensures var o := BufferStep(w);
      var t := BufferTry(Enter(w, Buffer));
      t.error.None? ==>
        && o.world.av.datasetName == BufferArtifact(w.host.env)
        && o.world.av.datasetNameExclusive == Join(ResultsDir(w.host.env), BUFFER_STEM)
        && o.world.av.data == Some(ReadConfigCsv(o.world.host.fs, w.host.env.cwd, BufferArtifact(w.host.env)).value)
        && o.world.av.active == w.av.active.(buffer := 0)
  {
    var w1 := Enter(w, Buffer);
    var imp := Import(w1, BUFFER_MODULE);
    BufferRoot(w.host.env);
    if imp.error.None? && Exists(imp.world.host.fs, w.host.env.cwd, BufferArtifact(w.host.env)) {
      var sel := SelectDataset(imp.world, BufferArtifact(w.host.env));
      if sel.error.None? {
        var st := ReloadStages(sel.world, STAGES);
      }
    }
  }

  /**
   * Lines 272-311: an error-free buffer+rough variant analyses the artifact
   * in the results directory, after moving a copy left in the working
   * directory there.
   */
  lemma BufferRoughOutcome(w: World)
    ensures var o := BufferRoughStep(w);
      var t := BufferRoughTry(Enter(w, BufferRough));
      t.error.None? ==>
        && o.error.None?
        && o.world.av.datasetName == BufferArtifact(w.host.env)
        && o.world.av.datasetNameExclusive == Join(ResultsDir(w.host.env), BUFFER_STEM)
        && o.world.av.data == Some(ReadConfigCsv(o.world.host.fs, w.host.env.cwd, BufferArtifact(w.host.env)).value)
        && o.world.av.active == w.av.active.(bufferRough := 0)
  {
    BufferRoot(w.host.env);
  }
}
