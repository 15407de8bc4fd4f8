/**
 * The run control of GUI_streamlit.py: the parameter dictionary built from
 * the widgets' values when "Run Analysis" is pressed, the modules
 * preselected from `av`, the guard that starts at most one worker, and the
 * status a worker leaves behind.
 */
module RunControl {
  import opened Wrappers
  import opened Files
  import opened Sequences

  // ---------------------------------------------------------------------------
  // The parameter dictionary

  /** A value of the parameter dictionary. */
  datatype Param = IntParam(i: int) | StrParam(s: string)

  /** One `key: value` item of a dict display, in the order it is written. */
  type Entry = (string, Param)

  /** The keys of a list of items, in order. */
  function KeysOf(es: seq<Entry>): (ks: seq<string>)
    ensures |ks| == |es| && forall i :: 0 <= i < |es| ==> ks[i] == es[i].0
  {
    if es == [] then [] else KeysOf(es[..|es| - 1]) + [es[|es| - 1].0]
  }

  /** The dict a display evaluates to: every item is inserted in turn, so a later item overrides an earlier one with the same key. */
  function DictOf(es: seq<Entry>): (d: map<string, Param>)
    ensures forall k :: k in d <==> k in KeysOf(es)
  {
    if es == [] then map[]
    else
      var init := es[..|es| - 1];
      assert forall k :: k in KeysOf(es) <==> k in KeysOf(init) || k == es[|es| - 1].0 by {
        assert KeysOf(es) == KeysOf(init) + [es[|es| - 1].0];
      }
      DictOf(init)[es[|es| - 1].0 := es[|es| - 1].1]
  }

  /** The value of a key is that of its last item. */
  lemma {:induction false} LastItemWins(es: seq<Entry>, i: nat)
    requires i < |es| && es[i].0 !in KeysOf(es[i + 1..])
    ensures es[i].0 in DictOf(es) && DictOf(es)[es[i].0] == es[i].1
    decreases |es|
  {
    var init := es[..|es| - 1];
    if i < |es| - 1 {
      assert KeysOf(es[i + 1..]) == KeysOf(init[i + 1..]) + [es[|es| - 1].0] by {
        assert es[i + 1..] == init[i + 1..] + [es[|es| - 1]];
      }
      assert init[i] == es[i];
      LastItemWins(init, i);
    }
  }

  /** The widgets' values when "Run Analysis" is pressed. */
  datatype UiInputs = UiInputs(
    pdpBuffer: bool, pdpRough: bool, pdpBufferRough: bool,
    selected: seq<string>,
    numbers: seq<real>,          // the number inputs, in the order of NUMERIC_KEYS
    datasetName: string, resultsDir: string)

  /** The keys of the module multiselect, in display order. */
  const MODULE_OPTIONS: seq<string> := [
    "N_PDP", "N_VA_StaticAbsolute", "N_VA_HeatMap", "N_VA_HClust",
    "N_VA_Mds", "N_VA_InequalityMatrices", "N_VA_TopK", "N_VA_TennisCourt"]

  /** The modules that need the distance matrices of N_PDP. */
  const PDP_DEPENDENTS: seq<string> := ["N_VA_HeatMap", "N_VA_HClust", "N_VA_Mds", "N_VA_TopK", "N_VA_InequalityMatrices"]

  /** The integer parameters, in the order of the dict display. */
  const NUMERIC_KEYS: seq<string> := [
    "window_length_tst", "num_frames", "buffer_x", "buffer_y", "rough_x", "rough_y",
    "min_boundary_x", "max_boundary_x", "min_boundary_y", "max_boundary_y",
    "DD", "des", "dim", "num_similar_configurations", "new_configuration_step", "division_factor"]

  /** `int(x)`: truncation toward zero. */
  function Trunc(x: real): (n: int)
    ensures x >= 0.0 ==> n as real <= x < n as real + 1.0
    ensures x < 0.0 ==> n as real - 1.0 < x <= n as real
  {
    if x >= 0.0 then x.Floor else -((-x).Floor)
  }

  function Bit(b: bool): int {
    if b then 1 else 0
  }

  /** Lines 332-340. */
  function PdpItems(ui: UiInputs): seq<Entry> {
    [("PDPg_fundamental", IntParam(1)),
     ("PDPg_buffer", IntParam(Bit(ui.pdpBuffer))),
     ("PDPg_rough", IntParam(Bit(ui.pdpRough))),
     ("PDPg_bufferrough", IntParam(Bit(ui.pdpBufferRough))),
     ("PDPg_fundamental_active", IntParam(1)),
     ("PDPg_buffer_active", IntParam(Bit(ui.pdpBuffer))),
     ("PDPg_rough_active", IntParam(Bit(ui.pdpRough))),
     ("PDPg_bufferrough_active", IntParam(Bit(ui.pdpBufferRough)))]
  }

  /** Line 343: `**{k: (1 if k in selected_modules else 0) for k in module_options.keys()}`. */
  function ModuleItems(keys: seq<string>, selected: seq<string>): (es: seq<Entry>)
    ensures KeysOf(es) == keys
    ensures forall i :: 0 <= i < |keys| ==> es[i].1 == IntParam(Bit(keys[i] in selected))
  {
    if keys == [] then []
    else
      var init := ModuleItems(keys[..|keys| - 1], selected);
      assert KeysOf(init + [(keys[|keys| - 1], IntParam(Bit(keys[|keys| - 1] in selected)))]) == keys[..|keys| - 1] + [keys[|keys| - 1]];
      init + [(keys[|keys| - 1], IntParam(Bit(keys[|keys| - 1] in selected)))]
  }

  /** Line 346: N_PDP is switched on by any module that needs it. */
  function PdpNeeded(selected: seq<string>): bool {
    (exists m :: m in PDP_DEPENDENTS && m in selected) || "N_PDP" in selected
  }

  /** Lines 349-364. */
  function NumericItems(keys: seq<string>, numbers: seq<real>): (es: seq<Entry>)
    requires |numbers| == |keys|
    ensures KeysOf(es) == keys
    ensures forall i :: 0 <= i < |keys| ==> es[i].1 == IntParam(Trunc(numbers[i]))
  {
    if keys == [] then []
    else
      var n := |keys| - 1;
      var init := NumericItems(keys[..n], numbers[..n]);
      assert KeysOf(init + [(keys[n], IntParam(Trunc(numbers[n])))]) == keys[..n] + [keys[n]];
      init + [(keys[n], IntParam(Trunc(numbers[n])))]
  }

  /** The items of the dict display of lines 331-367, in order. */
  function ParamItems(ui: UiInputs): seq<Entry>
    requires |ui.numbers| == |NUMERIC_KEYS|
  {
    PdpItems(ui)
    + ModuleItems(MODULE_OPTIONS, ui.selected)
    + [("N_PDP", IntParam(Bit(PdpNeeded(ui.selected))))]
    + NumericItems(NUMERIC_KEYS, ui.numbers)
    + [("dataset_name", StrParam(ui.datasetName)), ("results_dir", StrParam(ui.resultsDir))]
  }

  /** `params` */
  function Params(ui: UiInputs): map<string, Param>
    requires |ui.numbers| == |NUMERIC_KEYS|
  {
    DictOf(ParamItems(ui))
  }

  /** The keys of lines 332-340. */
  const PDP_KEYS: seq<string> := [
    "PDPg_fundamental", "PDPg_buffer", "PDPg_rough", "PDPg_bufferrough",
    "PDPg_fundamental_active", "PDPg_buffer_active", "PDPg_rough_active", "PDPg_bufferrough_active"]

  /** The keys of the dict display, in order; N_PDP appears twice. */
  const ALL_KEYS: seq<string> := PDP_KEYS + MODULE_OPTIONS + ["N_PDP"] + NUMERIC_KEYS + ["dataset_name", "results_dir"]

  /** Where the comprehension's N_PDP item sits. */
  const FIRST_PDP_ITEM := 8

  /** The keys of the items, segment by segment. */
  lemma ParamKeys(ui: UiInputs)
    requires |ui.numbers| == |NUMERIC_KEYS|
    ensures KeysOf(ParamItems(ui)) == ALL_KEYS
  {
    var a := PdpItems(ui);
    var b := ModuleItems(MODULE_OPTIONS, ui.selected);
    var c: seq<Entry> := [("N_PDP", IntParam(Bit(PdpNeeded(ui.selected))))];
    var d := NumericItems(NUMERIC_KEYS, ui.numbers);
    var e: seq<Entry> := [("dataset_name", StrParam(ui.datasetName)), ("results_dir", StrParam(ui.resultsDir))];
    assert ParamItems(ui) == a + b + c + d + e;
    assert KeysOf(a) == PDP_KEYS;
    assert |KeysOf(a + b + c + d + e)| == |ALL_KEYS|;
    forall i | 0 <= i < |ALL_KEYS| ensures KeysOf(a + b + c + d + e)[i] == ALL_KEYS[i] {
    }
  }

  /** No key occurs twice. */
  predicate Distinct(ks: seq<string>) {
    forall i, j :: 0 <= i < j < |ks| ==> ks[i] != ks[j]
  }

  /** Every key begins with `c`. */
  predicate AllStartWith(ks: seq<string>, c: char) {
    forall i :: 0 <= i < |ks| ==> ks[i] != [] && ks[i][0] == c
  }

  /** No key begins with `c`. */
  predicate NoneStartWith(ks: seq<string>, c: char) {
    forall i :: 0 <= i < |ks| ==> ks[i] == [] || ks[i][0] != c
  }

  /** Two distinct lists told apart by their first letters are distinct together. */
  lemma DistinctConcat(a: seq<string>, b: seq<string>, c: char)
    requires Distinct(a) && Distinct(b) && AllStartWith(a, c) && NoneStartWith(b, c)
    ensures Distinct(a + b)
  {
    var ab := a + b;
    forall i, j | 0 <= i < j < |ab| ensures ab[i] != ab[j] {
      if i < |a| && j >= |a| {
        assert ab[j] == b[j - |a|];
      } else if i >= |a| {
        assert ab[i] == b[i - |a|] && ab[j] == b[j - |a|];
      }
    }
  }

  /** The multiselect's keys after N_PDP, then N_PDP itself. */
  const LATER_MODULE_KEYS: seq<string> := MODULE_OPTIONS[1..] + ["N_PDP"]

  /** The keys after the module items. */
  const TRAILING_KEYS: seq<string> := NUMERIC_KEYS + ["dataset_name", "results_dir"]

  lemma TrailingDistinct()
    ensures Distinct(TRAILING_KEYS) && NoneStartWith(TRAILING_KEYS, 'N') && NoneStartWith(TRAILING_KEYS, 'P')
  {
    var ks := TRAILING_KEYS;
    forall i, j | 0 <= i < j < |ks| ensures ks[i] != ks[j] {
      if |ks[i]| == |ks[j]| {
        if ks[i][1] == ks[j][1] {
          assert ks[i][|ks[i]| - 1] != ks[j][|ks[j]| - 1];
        }
      }
    }
  }

  lemma PdpKeysDistinct()
    ensures Distinct(PDP_KEYS) && AllStartWith(PDP_KEYS, 'P')
  {
    var ks := PDP_KEYS;
    forall i, j | 0 <= i < j < |ks| ensures ks[i] != ks[j] {
      if |ks[i]| == |ks[j]| {
        assert ks[i][|ks[i]| - 1] != ks[j][|ks[j]| - 1] || ks[i][5] != ks[j][5];
      }
    }
  }

  lemma LaterModulesDistinct()
    ensures Distinct(LATER_MODULE_KEYS) && AllStartWith(LATER_MODULE_KEYS, 'N')
  {
    var ks := LATER_MODULE_KEYS;
    forall i, j | 0 <= i < j < |ks| ensures ks[i] != ks[j] {
      assert |ks[i]| != |ks[j]|;
    }
  }

  /** Apart from the comprehension's N_PDP, no key of the display occurs again later. */
  lemma KeysUniqueAfter()
    ensures forall i, j :: 0 <= i < j < |ALL_KEYS| && i != FIRST_PDP_ITEM ==> ALL_KEYS[i] != ALL_KEYS[j]
  {
    TrailingDistinct();
    PdpKeysDistinct();
    LaterModulesDistinct();
    var rest := LATER_MODULE_KEYS + TRAILING_KEYS;
    DistinctConcat(LATER_MODULE_KEYS, TRAILING_KEYS, 'N');
    assert NoneStartWith(rest, 'P') by {
      forall i | 0 <= i < |rest| ensures rest[i] == [] || rest[i][0] != 'P' {
        if i >= |LATER_MODULE_KEYS| {
          assert rest[i] == TRAILING_KEYS[i - |LATER_MODULE_KEYS|];
        }
      }
    }
    DistinctConcat(PDP_KEYS, rest, 'P');
    assert ALL_KEYS == PDP_KEYS + ["N_PDP"] + rest;
    assert rest[|LATER_MODULE_KEYS| - 1] == "N_PDP";
    DistinctButRepeated(PDP_KEYS, "N_PDP", rest, |LATER_MODULE_KEYS| - 1);
  }

  /** Inserting, after a, a copy of a later key of a distinct list leaves every other position unrepeated. */
  lemma DistinctButRepeated(a: seq<string>, x: string, r: seq<string>, k: nat)
    requires Distinct(a + r) && k < |r| && r[k] == x
    ensures var s := a + [x] + r;
      forall i, j :: 0 <= i < j < |s| && i != |a| ==> s[i] != s[j]
  {
    var s := a + [x] + r;
    var d := a + r;
    forall i, j | 0 <= i < j < |s| && i != |a| ensures s[i] != s[j] {
      var i' := if i < |a| then i else i - 1;
      var j' := if j < |a| then j else if j == |a| then |a| + k else j - 1;
      assert s[i] == d[i'] && s[j] == d[j'];
    }
  }

  /** Every item but the comprehension's N_PDP gives its key its value. */
  lemma ItemWins(ui: UiInputs, i: nat)
    requires |ui.numbers| == |NUMERIC_KEYS|
    requires i < |ALL_KEYS| && i != FIRST_PDP_ITEM
    ensures ALL_KEYS[i] in Params(ui) && Params(ui)[ALL_KEYS[i]] == ParamItems(ui)[i].1
  {
    var es := ParamItems(ui);
    ParamKeys(ui);
    KeysUniqueAfter();
    assert KeysOf(es[i + 1..]) == ALL_KEYS[i + 1..];
    LastItemWins(es, i);
  }

  /** The eight PDP items keep their values. */
  lemma PdpItemWins(ui: UiInputs, i: nat)
    requires |ui.numbers| == |NUMERIC_KEYS| && i < |PDP_KEYS|
    ensures PDP_KEYS[i] in Params(ui) && Params(ui)[PDP_KEYS[i]] == PdpItems(ui)[i].1
  {
    ItemWins(ui, i);
  }

  /** The dictionary has exactly the keys of the display. */
  lemma ParamsKeys(ui: UiInputs)
    requires |ui.numbers| == |NUMERIC_KEYS|
    ensures forall k :: k in Params(ui) <==> k in ALL_KEYS
  {
    ParamKeys(ui);
  }

  /** Lines 333 and 337: the fundamental variant is always requested, with its flag preset, whatever the checkboxes say. */
  lemma FundamentalForced(ui: UiInputs)
    requires |ui.numbers| == |NUMERIC_KEYS|
    ensures "PDPg_fundamental" in Params(ui) && Params(ui)["PDPg_fundamental"] == IntParam(1)
    ensures "PDPg_fundamental_active" in Params(ui) && Params(ui)["PDPg_fundamental_active"] == IntParam(1)
  {
    PdpItemWins(ui, 0);
    PdpItemWins(ui, 4);
  }

  /** Lines 334-340: the buffer, rough and buffer+rough toggles and their `*_active` flags are the checkboxes. */
  lemma FlagsMirrorToggles(ui: UiInputs)
    requires |ui.numbers| == |NUMERIC_KEYS|
    ensures var p := Params(ui);
      && "PDPg_buffer" in p && p["PDPg_buffer"] == IntParam(Bit(ui.pdpBuffer))
      && "PDPg_buffer_active" in p && p["PDPg_buffer_active"] == p["PDPg_buffer"]
      && "PDPg_rough" in p && p["PDPg_rough"] == IntParam(Bit(ui.pdpRough))
      && "PDPg_rough_active" in p && p["PDPg_rough_active"] == p["PDPg_rough"]
      && "PDPg_bufferrough" in p && p["PDPg_bufferrough"] == IntParam(Bit(ui.pdpBufferRough))
      && "PDPg_bufferrough_active" in p && p["PDPg_bufferrough_active"] == p["PDPg_bufferrough"]
  {
    PdpItemWins(ui, 1);
    PdpItemWins(ui, 2);
    PdpItemWins(ui, 3);
    PdpItemWins(ui, 5);
    PdpItemWins(ui, 6);
    PdpItemWins(ui, 7);
  }

  /** Line 343: every module key but N_PDP is 1 exactly when it is selected. */
  lemma ModulesMirrorSelection(ui: UiInputs, k: string)
    requires |ui.numbers| == |NUMERIC_KEYS|
    requires k in MODULE_OPTIONS && k != "N_PDP"
    ensures k in Params(ui) && Params(ui)[k] == IntParam(Bit(k in ui.selected))
  {
    var j :| 0 <= j < |MODULE_OPTIONS| && MODULE_OPTIONS[j] == k;
    ModuleItemWins(ui, j);
  }

  /** The module items after the comprehension's N_PDP keep their values. */
  lemma ModuleItemWins(ui: UiInputs, j: nat)
    requires |ui.numbers| == |NUMERIC_KEYS| && 0 < j < |MODULE_OPTIONS|
    ensures MODULE_OPTIONS[j] in Params(ui) && Params(ui)[MODULE_OPTIONS[j]] == ModuleItems(MODULE_OPTIONS, ui.selected)[j].1
  {
    var a, b := PdpItems(ui), ModuleItems(MODULE_OPTIONS, ui.selected);
    var c := [("N_PDP", IntParam(Bit(PdpNeeded(ui.selected))))] + NumericItems(NUMERIC_KEYS, ui.numbers)
      + [("dataset_name", StrParam(ui.datasetName)), ("results_dir", StrParam(ui.resultsDir))];
    assert ParamItems(ui) == a + b + c;
    MiddleIndex(a, b, c, j);
    MiddleIndex(PDP_KEYS, MODULE_OPTIONS, ["N_PDP"] + NUMERIC_KEYS + ["dataset_name", "results_dir"], j);
    assert ALL_KEYS == PDP_KEYS + MODULE_OPTIONS + (["N_PDP"] + NUMERIC_KEYS + ["dataset_name", "results_dir"]);
    ItemWins(ui, |PDP_KEYS| + j);
  }

  lemma MiddleIndex<T>(a: seq<T>, b: seq<T>, c: seq<T>, j: nat)
    requires j < |b|
    ensures (a + b + c)[|a| + j] == b[j]
  {
  }

  /** Lines 343-346: the later N_PDP item overrides the comprehension's, so N_PDP is on when it or any dependent module is selected. */
  lemma PdpFollowsDependents(ui: UiInputs)
    requires |ui.numbers| == |NUMERIC_KEYS|
    ensures "N_PDP" in Params(ui)
    ensures Params(ui)["N_PDP"] == IntParam(1) <==>
      "N_PDP" in ui.selected || exists m :: m in PDP_DEPENDENTS && m in ui.selected
    ensures Params(ui)["N_PDP"] == IntParam(0) <==>
      "N_PDP" !in ui.selected && forall m :: m in PDP_DEPENDENTS ==> m !in ui.selected
  {
    ItemWins(ui, 16);
  }

  /** Lines 349-364: each number input is passed through `int()`. */
  lemma NumbersTruncated(ui: UiInputs, j: nat)
    requires |ui.numbers| == |NUMERIC_KEYS| && j < |NUMERIC_KEYS|
    ensures NUMERIC_KEYS[j] in Params(ui) && Params(ui)[NUMERIC_KEYS[j]] == IntParam(Trunc(ui.numbers[j]))
  {
    assert ALL_KEYS[17 + j] == NUMERIC_KEYS[j];
    assert ParamItems(ui)[17 + j] == NumericItems(NUMERIC_KEYS, ui.numbers)[j];
    ItemWins(ui, 17 + j);
  }

  /** Lines 365-366: the two paths are passed as they are. */
  lemma PathsPassed(ui: UiInputs)
    requires |ui.numbers| == |NUMERIC_KEYS|
    ensures "dataset_name" in Params(ui) && Params(ui)["dataset_name"] == StrParam(ui.datasetName)
    ensures "results_dir" in Params(ui) && Params(ui)["results_dir"] == StrParam(ui.resultsDir)
  {
    ItemWins(ui, 33);
    ItemWins(ui, 34);
  }

  // ---------------------------------------------------------------------------
  // The preselected modules

  /** `getattr(av, k, 0) == 1` */
  predicate IsOn(attrs: map<string, Param>, k: string) {
    k in attrs && attrs[k] == IntParam(1)
  }

  /** Line 244 over the keys `keys`. */
  function SelectedAmong(keys: seq<string>, attrs: map<string, Param>): (r: seq<string>)
    ensures forall k :: k in r <==> k in keys && IsOn(attrs, k)
    ensures Subsequence(r, keys)
  {
    if keys == [] then []
    else
      var rest := SelectedAmong(keys[1..], attrs);
      if IsOn(attrs, keys[0]) then
        assert ([keys[0]] + rest)[1..] == rest;
        [keys[0]] + rest
      else rest
  }

  /** `default_selected`: the modules whose `av` attribute is 1, in the multiselect's order. */
  function DefaultSelected(attrs: map<string, Param>): (r: seq<string>)
    ensures forall k :: k in r <==> k in MODULE_OPTIONS && IsOn(attrs, k)
    ensures Subsequence(r, MODULE_OPTIONS)
  {
    SelectedAmong(MODULE_OPTIONS, attrs)
  }

  // ---------------------------------------------------------------------------
  // The session and its worker

  /** `st.session_state.last_status` */
  datatype Status = Idle | Running | Finished | Stopped | Failed

  /** `st.session_state.run_thread`: no thread, or a thread that is or is no longer alive. */
  datatype ThreadSlot = NoThread | Worker(alive: bool, params: map<string, Param>)

  /** The file name of the worker's log, in the results directory. */
  const LOG_FILE := "analysis_log.txt"

  /** The dataset path a run falls back to. */
  const DEFAULT_DATASET := "N_C_Dataset.csv"

  /** `params.get(key, default)` for a path: the path itself when the GUI passed one. */
  function PathParam(params: map<string, Param>, key: string, default: string): string {
    if key in params && params[key].StrParam? then params[key].s else default
  }

  /** What the worker copies into `av`: the parameters whose keys `av` already has. */
  function Applied(attrs: map<string, Param>, params: map<string, Param>): (r: map<string, Param>)
    ensures r.Keys == attrs.Keys
    ensures forall k :: k in attrs ==> r[k] == if k in params then params[k] else attrs[k]
  {
    map k | k in attrs :: if k in params then params[k] else attrs[k]
  }

  /** The status a worker that got past the dataset check ends in. */
  function RunStatus(failed: bool, stopRequested: bool): (s: Status)
    ensures s == Failed <==> failed
    ensures s == Stopped <==> !failed && stopRequested
    ensures s == Finished <==> !failed && !stopRequested
  {
    if failed then Failed else if stopRequested then Stopped else Finished
  }

  /** `st.session_state`, the process environment and the attributes of `av`. */
  class Session {
    var runThread: ThreadSlot
    var lastStatus: Status
    var stopRequested: bool
    var analysisFinished: bool
    var logFilePath: Option<string>
    var env: Env
    var attrs: map<string, Param>
    /** The attributes of `av` as the last run configured them, before the pipeline wrote to it. */
    ghost var configured: map<string, Param>

    /** Lines 36-47 on a fresh session. */
    constructor (env0: Env, attrs0: map<string, Param>)
      ensures runThread == NoThread && lastStatus == Idle && !stopRequested && !analysisFinished
      ensures logFilePath == None && env == env0 && attrs == attrs0 && configured == attrs0
    {
      runThread, lastStatus, stopRequested, analysisFinished := NoThread, Idle, false, false;
      logFilePath, env, attrs := None, env0, attrs0;
      configured := attrs0;
    }

    /** Whether "Run Analysis" may start a worker (line 370). */
    function CanStart(): bool
      reads this
    {
      runThread.NoThread? || !runThread.alive
    }

    /** Lines 370-395: start a worker unless one is alive. */
    method StartRun(params: map<string, Param>) returns (started: bool)
      modifies this
      ensures started == old(CanStart())
      ensures started ==> runThread == Worker(true, params) && !stopRequested
      ensures !started ==> runThread == old(runThread) && stopRequested == old(stopRequested)
      ensures lastStatus == old(lastStatus) && analysisFinished == old(analysisFinished)
      ensures logFilePath == old(logFilePath) && env == old(env) && attrs == old(attrs) && configured == old(configured)
    {
      started := CanStart();
      if started {
        stopRequested := false;
        runThread := Worker(true, params);
      }
    }

    /** Lines 398-399: "Stop Analysis". */
    method RequestStop()
      modifies this
      ensures stopRequested
      ensures runThread == old(runThread) && lastStatus == old(lastStatus) && analysisFinished == old(analysisFinished)
      ensures logFilePath == old(logFilePath) && env == old(env) && attrs == old(attrs) && configured == old(configured)
    {
      stopRequested := true;
    }

    /** Lines 130-132: `for key, value in params.items(): if hasattr(av, key): setattr(av, key, value)`. */
    method ApplyParams(params: map<string, Param>)
      modifies this
      ensures attrs == Applied(old(attrs), params)
      ensures runThread == old(runThread) && lastStatus == old(lastStatus) && stopRequested == old(stopRequested)
      ensures analysisFinished == old(analysisFinished) && logFilePath == old(logFilePath) && env == old(env)
      ensures configured == old(configured)
    {
      var todo := params.Keys;
      var av := attrs;
      while todo != {}
        invariant todo <= params.Keys && av.Keys == attrs.Keys
        invariant forall k :: k in av ==> av[k] == if k in params && k !in todo then params[k] else attrs[k]
        decreases todo
      {
        var key :| key in todo;
        if key in av {
          av := av[key := params[key]];
        }
        todo := todo - {key};
      }
      attrs := av;
    }

    /**
     * Lines 60-155 once the dataset exists: the environment is set up, `av`
     * reloaded and configured, and the pipeline runs.
     */
    method Launch(params: map<string, Param>, reloaded: map<string, Param>, writes: map<string, Param>,
                  pipelineFails: bool, dataset: string, resultsDir: string)
      modifies this
      ensures env == old(env).(
                avDataset := if "dataset_name" in params then Some(dataset) else old(env).avDataset,
                resultsDir := Some(resultsDir), skipLoad := "0")
      ensures configured == Applied(reloaded, params) && attrs == configured + writes
      ensures lastStatus == RunStatus(pipelineFails, old(stopRequested))
      ensures analysisFinished == (lastStatus == Finished)
      ensures runThread == old(runThread) && stopRequested == old(stopRequested) && logFilePath == old(logFilePath)
    {
      var avDataset := if "dataset_name" in params then Some(dataset) else env.avDataset;
      env := env.(avDataset := avDataset, resultsDir := Some(resultsDir), skipLoad := "0");
      attrs := reloaded;
      ApplyParams(params);
      configured := attrs;
      attrs := attrs + writes;
      lastStatus := RunStatus(pipelineFails, stopRequested);
      analysisFinished := lastStatus == Finished;
    }

    /**
     * `run_moving_objects_in_background(params)` (lines 50-177). The files
     * are `fs`; what `importlib.reload(av)` leaves in `av` is `reloaded`;
     * the attributes importing and reloading N_Moving_Objects assign are
     * `writes`, and whether it raised is `pipelineFails`. A stop requested
     * before the pipeline returned is in `stopRequested`.
     */
    method RunInBackground(params: map<string, Param>, fs: FileSystem, reloaded: map<string, Param>,
                           writes: map<string, Param>, pipelineFails: bool)
      modifies this
      ensures var resultsDir := PathParam(params, "results_dir", old(env).cwd);
        var dataset := PathParam(params, "dataset_name", DEFAULT_DATASET);
        && logFilePath == Some(Join(resultsDir, LOG_FILE))
        && runThread == NoThread
        && stopRequested == old(stopRequested)
        && (!Exists(fs, old(env).cwd, dataset) ==>
              && lastStatus == Failed && !analysisFinished
              && env == old(env).(skipLoad := "1") && attrs == old(attrs) && configured == old(configured))
        && (Exists(fs, old(env).cwd, dataset) ==>
              && env == old(env).(
                   avDataset := if "dataset_name" in params then Some(dataset) else old(env).avDataset,
                   resultsDir := Some(resultsDir), skipLoad := "1")
              && configured == Applied(reloaded, params)
              && attrs == configured + writes
              && lastStatus == RunStatus(pipelineFails, old(stopRequested))
              && analysisFinished == (lastStatus == Finished))
    {
      lastStatus := Running;
      analysisFinished := false;
      var resultsDir := PathParam(params, "results_dir", env.cwd);
      logFilePath := Some(Join(resultsDir, LOG_FILE));
      var dataset := PathParam(params, "dataset_name", DEFAULT_DATASET);
      if !Exists(fs, env.cwd, dataset) {
        lastStatus := Failed;
      } else {
        Launch(params, reloaded, writes, pipelineFails, dataset, resultsDir);
      }
      env := env.(skipLoad := "1");
      runThread := NoThread;
    }
  }
}
