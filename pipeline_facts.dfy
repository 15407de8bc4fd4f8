/**
 * What a run of N_Moving_Objects guarantees: the variants are entered in
 * their fixed order, each clears its `*_active` flag unless it raised, the
 * completion report appears at most once, and the analysis stages never
 * see more than one variant active.
 */
module PipelineFacts {
  import opened Wrappers
  import opened Files
  import opened Loader
  import opened MovingObjects

  // ---------------------------------------------------------------------------
  // Reading the log

  /** The variants entered, in log order. */
  function Entries(log: seq<Event>): seq<Variant> {
    if log == [] then []
    else Entries(log[..|log| - 1]) + (if log[|log| - 1].Entered? then [log[|log| - 1].variant] else [])
  }

  /** How many completion reports the log holds. */
  function Completions(log: seq<Event>): nat {
    if log == [] then 0
    else Completions(log[..|log| - 1]) + (if log[|log| - 1].Completed? then 1 else 0)
  }

  /** Every module execution in the log saw at most one `*_active` flag set. */
  predicate RansAtMostOne(log: seq<Event>) {
    forall i :: 0 <= i < |log| && log[i].Ran? ==> |log[i].active| <= 1
  }

  /** The toggled variants among vs, in order. */
  function ToggledOf(t: Toggles, vs: seq<Variant>): (r: seq<Variant>)
    ensures forall v :: v in r <==> v in vs && VariantToggle(t, v) == 1
  {
    if vs == [] then [] else (if VariantToggle(t, vs[0]) == 1 then [vs[0]] else []) + ToggledOf(t, vs[1..])
  }

  /** The toggled variants, in the order the module body visits them. */
  function Toggled(t: Toggles): seq<Variant> {
    ToggledOf(t, VARIANTS)
  }

  lemma AppendEvent(log: seq<Event>, e: Event)
    ensures Entries(log + [e]) == Entries(log) + (if e.Entered? then [e.variant] else [])
    ensures Completions(log + [e]) == Completions(log) + (if e.Completed? then 1 else 0)
    ensures RansAtMostOne(log + [e]) <==> RansAtMostOne(log) && (e.Ran? ==> |e.active| <= 1)
  {
    assert (log + [e])[..|log|] == log;
    if RansAtMostOne(log) && (e.Ran? ==> |e.active| <= 1) {
      forall i | 0 <= i < |log + [e]| && (log + [e])[i].Ran? ensures |(log + [e])[i].active| <= 1 {
        if i < |log| { assert (log + [e])[i] == log[i]; }
      }
    }
    if RansAtMostOne(log + [e]) {
      forall i | 0 <= i < |log| && log[i].Ran? ensures |log[i].active| <= 1 {
        assert (log + [e])[i] == log[i];
      }
    }
  }

  lemma ActiveSetOfSetFlag(a: Active, v: Variant, x: int)
    ensures ActiveSet(SetFlag(a, v, x)) == if x == 1 then ActiveSet(a) + {v} else ActiveSet(a) - {v}
  {
  }

  // ---------------------------------------------------------------------------
  // Calm code: it changes the files, the module cache and the dataset, and
  // logs only module executions and warnings that saw the current flags

  predicate Calm(w: World, w': World) {
    && w'.av.toggles == w.av.toggles && w'.av.active == w.av.active && w'.av.printed == w.av.printed
    && w'.host.env == w.host.env && w'.host.available == w.host.available
    && w.host.log <= w'.host.log
    && forall i :: |w.host.log| <= i < |w'.host.log| ==> QuietEvent(w'.host.log[i], ActiveSet(w.av.active))
  }

  lemma CalmTrans(w1: World, w2: World, w3: World)
    requires Calm(w1, w2) && Calm(w2, w3)
    ensures Calm(w1, w3)
  {
    forall i | |w1.host.log| <= i < |w3.host.log|
      ensures QuietEvent(w3.host.log[i], ActiveSet(w1.av.active))
    {
      if i < |w2.host.log| {
        assert w3.host.log[i] == w2.host.log[i];
      }
    }
  }

  /** Calm code enters no variant, reports no completion and keeps the at-most-one-active property. */
  lemma {:induction false} CalmLog(log: seq<Event>, ext: seq<Event>, active: set<Variant>)
    requires log <= ext
    requires forall i :: |log| <= i < |ext| ==> QuietEvent(ext[i], active)
    ensures Entries(ext) == Entries(log) && Completions(ext) == Completions(log)
    ensures |active| <= 1 && RansAtMostOne(log) ==> RansAtMostOne(ext)
    decreases |ext|
  {
    if |ext| > |log| {
      var init := ext[..|ext| - 1];
      assert ext == init + [ext[|ext| - 1]];
      assert init[..|log|] == log;
      CalmLog(log, init, active);
      AppendEvent(init, ext[|ext| - 1]);
    } else {
      assert ext == log;
    }
  }

  lemma CalmFacts(w: World, w': World)
    requires Calm(w, w')
    ensures Entries(w'.host.log) == Entries(w.host.log) && Completions(w'.host.log) == Completions(w.host.log)
    ensures |ActiveSet(w.av.active)| <= 1 && RansAtMostOne(w.host.log) ==> RansAtMostOne(w'.host.log)
  {
    CalmLog(w.host.log, w'.host.log, ActiveSet(w.av.active));
  }

  lemma QuietIsCalm(w: World, w': World)
    requires Quiet(w, w')
    ensures Calm(w, w')
  {
  }

  lemma SelectIsCalm(w: World, path: string)
    ensures Calm(w, SelectDataset(w, path).world)
    ensures SelectDataset(w, path).world.host == w.host
  {
  }

  lemma BufferTryIsCalm(w: World)
    ensures Calm(w, BufferTry(w).world)
  {
    var imp := Import(w, BUFFER_MODULE);
    QuietIsCalm(w, imp.world);
    if imp.error.None? {
      var path := Join(ResultsDir(imp.world.host.env), BufferTransform.OUTPUT_NAME);
      if Exists(imp.world.host.fs, imp.world.host.env.cwd, path) {
        var sel := SelectDataset(imp.world, path);
        SelectIsCalm(imp.world, path);
        CalmTrans(w, imp.world, sel.world);
        if sel.error.None? {
          var st := ReloadStages(sel.world, STAGES);
          QuietIsCalm(sel.world, st.world);
          CalmTrans(w, sel.world, st.world);
        }
      }
    }
  }

  lemma BufferRoughTryIsCalm(w: World)
    ensures Calm(w, BufferRoughTry(w).world)
  {
    var imp := Import(w, BUFFER_MODULE);
    QuietIsCalm(w, imp.world);
    if imp.error.None? {
      var h := imp.world.host;
      var inCwd := BufferTransform.OUTPUT_NAME;
      var inResults := Join(ResultsDir(h.env), BufferTransform.OUTPUT_NAME);
      var w1 :=
        if Exists(h.fs, h.env.cwd, inCwd) && inCwd != inResults
        then imp.world.(host := h.(fs := MoveFile(h.fs, h.env.cwd, inCwd, inResults)))
        else imp.world;
      assert Calm(imp.world, w1);
      CalmTrans(w, imp.world, w1);
      var sel := SelectDataset(w1, inResults);
      SelectIsCalm(w1, inResults);
      CalmTrans(w, w1, sel.world);
      if sel.error.None? {
        var st := ReloadStages(sel.world, STAGES);
        QuietIsCalm(sel.world, st.world);
        CalmTrans(w, sel.world, st.world);
      }
    }
  }

  // ---------------------------------------------------------------------------
  // One variant

  /**
   * The discipline of an entered variant v: the toggles, the report flag, the
   * environment are untouched, the log grows by one entry for v, no report,
   * and v's flag ends at 0, or at 1 when v raised; while v runs, the stages
   * see only v's flag (when no flag was set before).
   */
  predicate VariantDiscipline(w: World, o: Outcome, v: Variant) {
    && o.world.av.toggles == w.av.toggles && o.world.av.printed == w.av.printed
    && o.world.host.env == w.host.env && o.world.host.available == w.host.available
    && Entries(o.world.host.log) == Entries(w.host.log) + [v]
    && Completions(o.world.host.log) == Completions(w.host.log)
    && o.world.av.active == SetFlag(w.av.active, v, if o.error.None? then 0 else 1)
    && (ActiveSet(w.av.active) == {} && RansAtMostOne(w.host.log) ==> RansAtMostOne(o.world.host.log))
  }

  /** Enter then calm code then (if it did not raise) leave. */
  lemma EnterCalmLeave(w: World, v: Variant, w2: World, o: Outcome)
    requires Calm(Enter(w, v), w2)
    requires o.error.None? ==> o.world == Leave(w2, v)
    requires o.error.Some? ==> o.world == w2
    ensures VariantDiscipline(w, o, v)
  {
    var w1 := Enter(w, v);
    AppendEvent(w.host.log, Entered(v));
    CalmFacts(w1, w2);
    ActiveSetOfSetFlag(w.av.active, v, 1);
    if ActiveSet(w.av.active) == {} {
      assert ActiveSet(w1.av.active) == {v};
    }
  }

  lemma FundamentalDiscipline(w: World)
    ensures VariantDiscipline(w, FundamentalStep(w), Fundamental)
  {
    var w1 := Enter(w, Fundamental);
    var h := w1.host;
    var path := FundamentalPath(h.env);
    var copied :=
      if AbsPath(h.env.cwd, w1.av.datasetName) == AbsPath(h.env.cwd, path) then Ok(h.fs)
      else CopyFile(h.fs, h.env.cwd, w1.av.datasetName, path);
    if copied.Err? {
      EnterCalmLeave(w, Fundamental, w1, FundamentalStep(w));
    } else {
      var w2 := w1.(host := h.(fs := copied.value));
      var sel := SelectDataset(w2, path);
      SelectIsCalm(w2, path);
      CalmTrans(w1, w2, sel.world);
      if sel.error.Some? {
        EnterCalmLeave(w, Fundamental, sel.world, FundamentalStep(w));
      } else {
        var st := ImportStages(sel.world, STAGES);
        QuietIsCalm(sel.world, st.world);
        CalmTrans(w1, sel.world, st.world);
        EnterCalmLeave(w, Fundamental, st.world, FundamentalStep(w));
      }
    }
  }

  lemma RoughDiscipline(w: World)
    ensures VariantDiscipline(w, RoughStep(w), Rough)
  {
    var w1 := Enter(w, Rough);
    var sel := SelectDataset(w1, FundamentalPath(w1.host.env));
    SelectIsCalm(w1, FundamentalPath(w1.host.env));
    if sel.error.Some? {
      EnterCalmLeave(w, Rough, sel.world, RoughStep(w));
    } else {
      var st := ReloadStages(sel.world, STAGES);
      QuietIsCalm(sel.world, st.world);
      CalmTrans(w1, sel.world, st.world);
      EnterCalmLeave(w, Rough, st.world, RoughStep(w));
    }
  }

  lemma BufferDiscipline(w: World)
    ensures VariantDiscipline(w, BufferStep(w), Buffer)
  {
    var w1 := Enter(w, Buffer);
    var t := BufferTry(w1);
    BufferTryIsCalm(w1);
    if t.error.Some? {
      var w2 := Log(t.world, Caught(Buffer, t.error.value));
      AppendEvent(t.world.host.log, Caught(Buffer, t.error.value));
      AppendEvent(w.host.log, Entered(Buffer));
      CalmFacts(w1, t.world);
      ActiveSetOfSetFlag(w.av.active, Buffer, 1);
      if ActiveSet(w.av.active) == {} {
        assert ActiveSet(w1.av.active) == {Buffer};
      }
    } else {
      EnterCalmLeave(w, Buffer, t.world, BufferStep(w));
    }
  }

  lemma BufferRoughDiscipline(w: World)
    ensures VariantDiscipline(w, BufferRoughStep(w), BufferRough)
  {
    var w1 := Enter(w, BufferRough);
    var t := BufferRoughTry(w1);
    BufferRoughTryIsCalm(w1);
    if t.error.Some? && t.error.value.ModuleNotFound? {
      AppendEvent(t.world.host.log, Caught(BufferRough, t.error.value));
      AppendEvent(w.host.log, Entered(BufferRough));
      CalmFacts(w1, t.world);
      ActiveSetOfSetFlag(w.av.active, BufferRough, 1);
      if ActiveSet(w.av.active) == {} {
        assert ActiveSet(w1.av.active) == {BufferRough};
      }
    } else {
      EnterCalmLeave(w, BufferRough, t.world, BufferRoughStep(w));
    }
  }

  /** A variant whose toggle is off does nothing; one whose toggle is on keeps the discipline; only the buffer variant never raises. */
  lemma GateFacts(w: World, v: Variant)
    ensures VariantToggle(w.av.toggles, v) != 1 ==> Gate(w, v) == Outcome(w, None)
    ensures VariantToggle(w.av.toggles, v) == 1 ==> VariantDiscipline(w, Gate(w, v), v)
    ensures v == Buffer ==> Gate(w, v).error.None?
  {
    if VariantToggle(w.av.toggles, v) == 1 {
      match v
      case Fundamental => FundamentalDiscipline(w);
      case Buffer => BufferDiscipline(w);
      case Rough => RoughDiscipline(w);
      case BufferRough => BufferRoughDiscipline(w);
    }
  }

  // ---------------------------------------------------------------------------
  // One execution of the module body

  /** The facts about a run of the gated variants vs. */
  predicate VariantsDiscipline(w: World, vs: seq<Variant>, o: Outcome) {
    var t := w.av.toggles;
    var E := Entries(w.host.log);
    && o.world.av.toggles == t && o.world.av.printed == w.av.printed
    && o.world.host.env == w.host.env && o.world.host.available == w.host.available
    && Completions(o.world.host.log) == Completions(w.host.log)
    // variants are entered in their fixed order, all toggled ones unless one raised
    && (o.error.None? ==> Entries(o.world.host.log) == E + ToggledOf(t, vs))
    && (o.error.Some? ==>
          && |E| < |Entries(o.world.host.log)|
          && Entries(o.world.host.log) <= E + ToggledOf(t, vs)
          && var last := Entries(o.world.host.log)[|Entries(o.world.host.log)| - 1];
             last != Buffer && Flag(o.world.av.active, last) == 1)
    // each toggled variant clears its flag; the others are untouched
    && (o.error.None? ==>
          forall v :: Flag(o.world.av.active, v) == if v in vs && VariantToggle(t, v) == 1 then 0 else Flag(w.av.active, v))
    // no stage ever sees two variants active
    && (ActiveSet(w.av.active) == {} && RansAtMostOne(w.host.log) ==> RansAtMostOne(o.world.host.log))
    && (ActiveSet(w.av.active) == {} && o.error.None? ==> ActiveSet(o.world.av.active) == {})
  }

  /** The effect of one gated variant on the flags, the entries and the report counter, whether or not it raised. */
  predicate GateDiscipline(w: World, v: Variant, o: Outcome) {
    var on := VariantToggle(w.av.toggles, v) == 1;
    && o.world.av.toggles == w.av.toggles && o.world.av.printed == w.av.printed
    && o.world.host.env == w.host.env && o.world.host.available == w.host.available
    && Entries(o.world.host.log) == Entries(w.host.log) + (if on then [v] else [])
    && Completions(o.world.host.log) == Completions(w.host.log)
    && o.world.av.active == (if !on then w.av.active else SetFlag(w.av.active, v, if o.error.None? then 0 else 1))
    && (o.error.Some? ==> on && v != Buffer)
    && (ActiveSet(w.av.active) == {} && RansAtMostOne(w.host.log) ==> RansAtMostOne(o.world.host.log))
    && (ActiveSet(w.av.active) == {} && o.error.None? ==> ActiveSet(o.world.av.active) == {})
  }

  lemma GateStep(w: World, v: Variant)
    ensures GateDiscipline(w, v, Gate(w, v))
  {
    GateFacts(w, v);
    ActiveSetOfSetFlag(w.av.active, v, 0);
  }

  /** A gated variant that raised ends the run, and the run keeps its discipline. */
  lemma ComposeRaised(w: World, vs: seq<Variant>, o: Outcome)
    requires vs != [] && GateDiscipline(w, vs[0], o) && o.error.Some?
    ensures VariantsDiscipline(w, vs, o)
  {
    var t := w.av.toggles;
    var E := Entries(w.host.log);
    var v := vs[0];
    assert ToggledOf(t, vs) == [v] + ToggledOf(t, vs[1..]);
    var got := E + [v];
    assert (E + ToggledOf(t, vs))[..|got|] == got;
  }

  /** A gated variant that completed, followed by the rest of the run, keeps the run's discipline. */
  lemma ComposeCompleted(w: World, vs: seq<Variant>, o: Outcome, r: Outcome)
    requires vs != [] && GateDiscipline(w, vs[0], o) && o.error.None?
    requires VariantsDiscipline(o.world, vs[1..], r)
    ensures VariantsDiscipline(w, vs, r)
  {
    var t := w.av.toggles;
    var E := Entries(w.host.log);
    var v := vs[0];
    var P := if VariantToggle(t, v) == 1 then [v] else [];
    assert ToggledOf(t, vs) == P + ToggledOf(t, vs[1..]);
    assert E + P + ToggledOf(t, vs[1..]) == E + ToggledOf(t, vs);
    if r.error.None? {
      ClearedFlags(t, vs, w.av.active, o.world.av.active, r.world.av.active);
    }
  }

  /** Clearing the first variant's flag and then those of the rest clears the flags of all toggled variants. */
  lemma ClearedFlags(t: Toggles, vs: seq<Variant>, a: Active, a1: Active, a2: Active)
    requires vs != []
    requires a1 == if VariantToggle(t, vs[0]) != 1 then a else SetFlag(a, vs[0], 0)
    requires forall u :: Flag(a2, u) == if u in vs[1..] && VariantToggle(t, u) == 1 then 0 else Flag(a1, u)
    ensures forall u :: Flag(a2, u) == if u in vs && VariantToggle(t, u) == 1 then 0 else Flag(a, u)
  {
    forall u ensures Flag(a2, u) == if u in vs && VariantToggle(t, u) == 1 then 0 else Flag(a, u) {
      assert u in vs <==> u == vs[0] || u in vs[1..];
    }
  }

  lemma {:induction false} VariantsFacts(w: World, vs: seq<Variant>)
    ensures VariantsDiscipline(w, vs, RunVariants(w, vs))
    decreases |vs|
  {
    if vs != [] {
      var o := Gate(w, vs[0]);
      GateStep(w, vs[0]);
      if o.error.Some? {
        ComposeRaised(w, vs, o);
      } else {
        VariantsFacts(o.world, vs[1..]);
        ComposeCompleted(w, vs, o, RunVariants(o.world, vs[1..]));
      }
    }
  }

  lemma AllVariants(v: Variant)
    ensures v in VARIANTS
  {
  }

  /** The facts about one execution of the module body (lines 22-327). */
  predicate BodyDiscipline(w: World, o: Outcome) {
    var t := w.av.toggles;
    var E := Entries(w.host.log);
    && o.world.av.toggles == t
    && o.world.host.env == w.host.env && o.world.host.available == w.host.available
    && (o.error.None? ==> Entries(o.world.host.log) == E + Toggled(t))
    // a static visualisation raised before any variant, or the last variant entered raised
    && (o.error.Some? ==>
          || (Entries(o.world.host.log) == E && o.world.av == w.av)
          || (&& |E| < |Entries(o.world.host.log)|
              && Entries(o.world.host.log) <= E + Toggled(t)
              && var last := Entries(o.world.host.log)[|Entries(o.world.host.log)| - 1];
                 last != Buffer && Flag(o.world.av.active, last) == 1))
    && (o.error.None? ==> forall v :: Flag(o.world.av.active, v) == if VariantToggle(t, v) == 1 then 0 else Flag(w.av.active, v))
    // the completion report: once, and only when not reported before
    && Completions(o.world.host.log) == Completions(w.host.log) + (if o.error.None? && !w.av.printed then 1 else 0)
    && o.world.av.printed == (w.av.printed || o.error.None?)
    && (ActiveSet(w.av.active) == {} && RansAtMostOne(w.host.log) ==> RansAtMostOne(o.world.host.log))
    && (ActiveSet(w.av.active) == {} && o.error.None? ==> ActiveSet(o.world.av.active) == {})
  }

  lemma BodyFacts(w: World)
    ensures BodyDiscipline(w, Body(w))
  {
    var s1 := StaticImport(w, w.av.toggles.staticAbsolute, STATIC_ABSOLUTE);
    QuietIsCalm(w, s1.world);
    CalmFacts(w, s1.world);
    if s1.error.None? {
      var s2 := StaticImport(s1.world, w.av.toggles.tennisCourt, TENNIS_COURT);
      QuietIsCalm(s1.world, s2.world);
      CalmTrans(w, s1.world, s2.world);
      CalmFacts(w, s2.world);
      if s2.error.None? {
        var v := RunVariants(s2.world, VARIANTS);
        VariantsFacts(s2.world, VARIANTS);
        forall u: Variant ensures u in VARIANTS { AllVariants(u); }
        if v.error.Some? || w.av.printed {
          UnreportedBody(w, s2.world, v);
        } else {
          ReportedBody(w, s2.world, v);
        }
      }
    }
  }

  /** What the plot imports that raised nothing leave for the variants: the same `av`, entries and reports. */
  predicate StaticCalm(w: World, w2: World) {
    && w2.av == w.av && w2.host.env == w.host.env && w2.host.available == w.host.available
    && Entries(w2.host.log) == Entries(w.host.log) && Completions(w2.host.log) == Completions(w.host.log)
    && (ActiveSet(w.av.active) == {} && RansAtMostOne(w.host.log) ==> RansAtMostOne(w2.host.log))
  }

  /** A body whose variants raised, or that reported on an earlier run, ends as its variants did. */
  lemma UnreportedBody(w: World, w2: World, v: Outcome)
    requires StaticCalm(w, w2) && VariantsDiscipline(w2, VARIANTS, v)
    requires forall u: Variant :: u in VARIANTS
    requires v.error.Some? || w.av.printed
    ensures BodyDiscipline(w, v)
  {
  }

  /** A body whose variants completed and that never reported before appends the report and sets the flag. */
  lemma ReportedBody(w: World, w2: World, v: Outcome)
    requires StaticCalm(w, w2) && VariantsDiscipline(w2, VARIANTS, v)
    requires forall u: Variant :: u in VARIANTS
    requires v.error.None? && !w.av.printed
    ensures var w1 := Log(v.world, Completed); BodyDiscipline(w, Outcome(w1.(av := w1.av.(printed := true)), None))
  {
    AppendEvent(v.world.host.log, Completed);
  }

  /** The facts about a run of the runner, as they follow from those about its bodies. */
  predicate PipelineDiscipline(w: World, o: Outcome) {
    var E := Entries(w.host.log);
    var T := Toggled(w.av.toggles);
    && o.world.av.toggles == w.av.toggles
    // reported at most once, never again once reported, and always when it completes unreported
    && Completions(w.host.log) <= Completions(o.world.host.log) <= Completions(w.host.log) + 1
    && (w.av.printed ==> Completions(o.world.host.log) == Completions(w.host.log))
    && (o.error.None? && !w.av.printed ==> Completions(o.world.host.log) == Completions(w.host.log) + 1)
    && o.world.av.printed == (w.av.printed || Completions(o.world.host.log) > Completions(w.host.log))
    && (o.error.None? && RUNNER in w.host.loaded ==> Entries(o.world.host.log) == E + T)
    && (o.error.None? && RUNNER !in w.host.loaded ==> Entries(o.world.host.log) == E + T + T)
    && (ActiveSet(w.av.active) == {} && RansAtMostOne(w.host.log) ==> RansAtMostOne(o.world.host.log))
  }

  /** A body that completes, then a second body after the runner was cached. */
  lemma ComposeBodies(w: World, first: Outcome, w1: World, second: Outcome)
    requires RUNNER !in w.host.loaded
    requires BodyDiscipline(w, first) && first.error.None?
    requires w1 == first.world.(host := first.world.host.(loaded := first.world.host.loaded + {RUNNER}))
    requires BodyDiscipline(w1, second)
    ensures PipelineDiscipline(w, second)
  {
  }

  /** One body: the one the runner executes when cached, or the first one, which raised. */
  lemma CacheOrFail(w: World, o: Outcome)
    requires BodyDiscipline(w, o)
    requires RUNNER in w.host.loaded || o.error.Some?
    ensures PipelineDiscipline(w, o)
  {
  }

  /**
   * What the GUI's import-then-reload of the runner guarantees: the
   * completion report appears once at most, and never when an earlier run
   * of the process already reported, even when the reload raises after the
   * import completed and reported; an uncached runner's body runs twice,
   * so every toggled variant is entered twice; no stage sees two flags.
   */
  lemma RunPipelineFacts(w: World)
    ensures PipelineDiscipline(w, RunPipeline(w))
  {
    if RUNNER in w.host.loaded {
      BodyFacts(w);
      CacheOrFail(w, Body(w));
    } else {
      // the import's fresh namespace differs from w in the bound names only
      var w0 := w.(host := w.host.(bound := {}));
      var first := Body(w0);
      BodyFacts(w0);
      if first.error.Some? {
        CacheOrFail(w0, first);
      } else {
        var w1 := first.world.(host := first.world.host.(loaded := first.world.host.loaded + {RUNNER}));
        BodyFacts(w1);
        ComposeBodies(w0, first, w1, Body(w1));
      }
    }
  }

  /**
   * An uncached import runs the body in a fresh namespace: the outcome does
   * not depend on which stage names an earlier run had bound.
   */
  lemma UncachedIgnoresBound(w: World, b: set<string>)
    requires RUNNER !in w.host.loaded
    ensures RunPipeline(w.(host := w.host.(bound := b))) == RunPipeline(w)
  {
  }
}
