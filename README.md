# SAM core in Dafny

This project models the computational core of SAM (moving-objects analysis
with point-distance-profile "PDP" variants) and proves properties of that
model. It covers six Python modules:

- `N_T_OB.py`, the buffer transform. It turns every well-formed 5-field row
  `(configuration, timestamp, point, x, y)` into five rows. The copies are
  shifted by `-buffer_x`, `+buffer_x`, nothing, `-buffer_y` and `+buffer_y`.
  Copy k gets point id `5p + k`.
- `N_Moving_Objects.py`, the loader and the pipeline runner.
  - `read_config_csv` checks the table (five columns, numeric cells) and
    derives the cardinalities `con/tst/poi` as column maximum + 1.
  - The module body is a state machine over the settings module `av`. It
    runs the fundamental, buffer, rough and buffer+rough variants, each
    gated by its toggle. Each variant sets and clears its `*_active` flag,
    points `dataset_name` at its copy of the data, loads it, and imports or
    reloads the enabled analysis stages. A one-shot flag keeps the
    completion report to a single print. Before the variants, the body
    imports the two static visualisations; whatever their drawing code
    raises ends the body.
- `GUI_streamlit.py`, the run control only:
  - the `params` dictionary built when "Run Analysis" is pressed;
  - `default_selected`;
  - the guard that starts at most one worker;
  - the state the background worker leaves behind.
- `N_VA_StaticAbsolute.py`, `N_VA_StaticAbsolute_tennis.py` and
  `N_VA_TennisCourt.py`, the visualisations:
  - rows are laid out timestamp-major: point p at timestamp i is row
    `p + i*poi` of its configuration;
  - the colour and label lists;
  - the segment loops and the counters they keep;
  - the exception each of them raises at import time, which propagates out
    of the runner's guarded `import` because only ImportError is caught.

The Dafny modules follow that structure:

| Dafny module | file | models |
|---|---|---|
| `Wrappers` | wrappers.dfy | `Option` and `Result` |
| `Sequences` | sequences.dfy | the order-preserving selection (subsequence) that the filters and the GUI's preselection are stated with |
| `Files` | files.dfy | CSV cells and lines, the file system as a map from absolute path to lines, the environment variables, POSIX `os.path.join`/`abspath`/`splitext`, `shutil.copyfile`/`move` |
| `Loader` | loader.dfy | `read_config_csv` |
| `BufferTransform` | buffer_transform.dfy | N_T_OB: the row expansion, its defaults, its missing-input check and its output |
| `BufferedData` | buffered_data.dfy | what `read_config_csv` makes of the transform's output |
| `MovingObjects` | moving_objects.dfy | the module body of N_Moving_Objects as functions on a `World` (the state of `av` plus the host: files, environment, module cache, event log) |
| `PipelineFacts` | pipeline_facts.dfy | the discipline of the flags, the entry order and the completion report |
| `VariantOutcomes` | variant_outcomes.dfy | what each variant leaves in `av` and on disk |
| `Runtime` | runtime.dfy | the same module body as imperative code: a class `Av` whose fields the variants update in place, and a class `Interpreter` whose methods are proved to produce exactly the state of the functional model |
| `RunControl` | run_control.dfy | the GUI's parameter dictionary, preselected modules and the `Session` class (`st.session_state`, the environment, the attributes of `av`) |
| `Plots` | plots.dfy | the shared layout, palettes, segments, coordinate lists and labels of the three visualisations |
| `StaticAbsolute`, `StaticAbsoluteTennis`, `TennisCourt` | static_absolute.dfy, static_absolute_tennis.dfy, tennis_court.dfy | the loops of each visualisation as methods proved against a function giving the expected figure |

Numbers are integers. A CSV cell is `Num(n)` or `Text(s)`; a blank line is
the empty list. Python exceptions are values of `Files.Error`, and every
operation that can raise returns them: `Result`, `Outcome.error` or an
`Option<Error>` out-parameter.

## Model

| member | source | states |
|---|---|---|
| Files.Join | SAM/SAM/N_Moving_Objects.py:100 | an absolute name replaces the directory; otherwise the name follows the directory and one separating slash |
| Files.JoinPrefix | SAM/SAM/N_Moving_Objects.py:100 | what precedes a relative name is the directory, ending in a slash unless it is empty |
| Files.AbsPath | SAM/SAM/N_Moving_Objects.py:103 | an absolute path is its own absolute path |
| Files.LastIndexOf | SAM/SAM/N_Moving_Objects.py:107 | the result is -1 or a position holding the character, and no later position holds it |
| Files.SplitExtRoot | SAM/SAM/N_Moving_Objects.py:107 | the root is the whole path or a proper prefix that ends just before a dot |
| Files.LastIndexOfAppend | SAM/SAM/N_Moving_Objects.py:107 | a character in the suffix is found at the prefix length plus its suffix position |
| Files.LastIndexOfAbsent | SAM/SAM/N_Moving_Objects.py:107 | a character that does not occur is not found |
| Files.LastIndexOfAppendAbsent | SAM/SAM/N_Moving_Objects.py:107 | a character missing from the suffix is found where it is in the prefix |
| Files.LastDotOfFileName | SAM/SAM/N_Moving_Objects.py:107 | in `stem.ext` with dot-free parts the last dot is the one after the stem |
| Files.StripExtension | SAM/SAM/N_Moving_Objects.py:107 | splitting the extension off `dir/stem.ext` gives `dir/stem` |
| Files.SplitExtRootAt | SAM/SAM/N_Moving_Objects.py:107 | when a non-dot character lies between the last slash and the last dot, the root is everything before that dot |
| Files.CopyFile | SAM/SAM/N_Moving_Objects.py:103-104 | with a missing source the copy raises FileNotFoundError naming it, and only then; the destination gets the source's lines; no other file changes |
| Files.MoveFile | SAM/SAM/N_Moving_Objects.py:281-282 | the destination gets the source's lines; a source different from the destination is gone; no other file changes |
| Loader.NonBlank | SAM/SAM/N_Moving_Objects.py:53 | the kept lines are non-empty input lines, none added; Loader.NonBlankSelect states that every non-empty line is kept, as often as it occurs, in file order |
| Loader.NonBlankSelect | SAM/SAM/N_Moving_Objects.py:53 | each non-empty line occurs in the result exactly as often as in the file, a blank line never, and the result is a subsequence of the file, so the file order is kept |
| Loader.FirstRagged | SAM/SAM/N_Moving_Objects.py:53 | no result iff every later row has the first row's width; otherwise the first row of another width |
| Loader.ReadTable | SAM/SAM/N_Moving_Objects.py:53 | a missing file raises FileNotFoundError, and only then; success iff the file exists and its non-blank rows form a rectangle; the table is those rows |
| Loader.FirstText | SAM/SAM/N_Moving_Objects.py:62-64 | no text iff every cell of the column is a number; otherwise a text the column holds |
| Loader.FirstTextFrom | SAM/SAM/N_Moving_Objects.py:62-64 | no text iff every cell from column c onward is a number; otherwise a text one of them holds |
| Loader.ToRecords | SAM/SAM/N_Moving_Objects.py:66 | one record per row, in order, holding the row's five values |
| Loader.MaxPlusOne | SAM/SAM/N_Moving_Objects.py:69-71 | 0 for an empty column; otherwise above every value and one more than a value that occurs |
| Loader.ConIds | SAM/SAM/N_Moving_Objects.py:69 | the configuration column, in record order |
| Loader.TstIds | SAM/SAM/N_Moving_Objects.py:70 | the timestamp column, in record order |
| Loader.PoiIds | SAM/SAM/N_Moving_Objects.py:71 | the point column, in record order |
| Loader.ReadConfigCsv | SAM/SAM/N_Moving_Objects.py:43-73 | a successful load read a table in which every cell is a number |
| Loader.ReadConfigOkIff | SAM/SAM/N_Moving_Objects.py:53-66 | the load succeeds iff the file exists and its non-blank rows are rectangular, five wide and all numeric |
| Loader.ColumnCountError | SAM/SAM/N_Moving_Objects.py:54-59 | a rectangular table of any width but five fails with the error naming the path and the actual width |
| Loader.NonNumericFails | SAM/SAM/N_Moving_Objects.py:62-64 | in a five-column table any non-numeric cell makes the load fail with a conversion error |
| Loader.CardinalitiesOf | SAM/SAM/N_Moving_Objects.py:69-71 | each of con, tst and poi bounds its column and is attained as maximum + 1 |
| Loader.LoadedOf | SAM/SAM/N_Moving_Objects.py:43-73 | a successful load is the records of the file's non-blank rows, of which there is at least one, with their cardinalities |
| Loader.LoadedContents | SAM/SAM/N_Moving_Objects.py:63-71 | the records built from a table hold every row in order with its five values, and each cardinality is its column's maximum + 1 |
| Loader.MaxPlusOneOfRange | SAM/SAM/N_Moving_Objects.py:69-71 | a column of ids 0..n-1 has cardinality n; an empty one has 0 |
| BufferTransform.WellFormedLines | SAM/SAM/N_T_OB.py:52-53 | the lines kept are well-formed and no more than the input; WellFormedLinesSelect states the selection in full |
| BufferTransform.WellFormedLinesSelect | SAM/SAM/N_T_OB.py:52-53 | a line is kept iff it is an input line with at least five fields; each such line is kept as often as it occurs, duplicates included; the kept lines are a subsequence of the input, so their order is kept |
| BufferTransform.ExpandLineCopies | SAM/SAM/N_T_OB.py:56-60 | a row with at least five fields expands iff its id and coordinates are numbers, and then into exactly five rows, copy k at position k |
| BufferTransform.CopyIdDecodes | SAM/SAM/N_T_OB.py:56-60 | the id of copy k divided by 5 is the point, the remainder is k |
| BufferTransform.IdsInjective | SAM/SAM/N_T_OB.py:56-60 | distinct (point, copy) pairs get distinct ids |
| BufferTransform.CopyKeepsKeys | SAM/SAM/N_T_OB.py:56-60 | every copy has five fields, with configuration and timestamp unchanged; later fields are dropped |
| BufferTransform.CentreCopyVerbatim | SAM/SAM/N_T_OB.py:58 | copy 2 keeps configuration, timestamp, x and y as they were |
| BufferTransform.CopiesMirror | SAM/SAM/N_T_OB.py:56-60 | copies 0 and 1 lie either side of the point along x with y kept; copies 3 and 4 lie either side along y with x kept |
| BufferTransform.ExpandErrPersists | SAM/SAM/N_T_OB.py:49-60 | once a prefix of the input raises, the whole transform raises the same error |
| BufferTransform.ExpandOkIff | SAM/SAM/N_T_OB.py:49-60 | the transform succeeds iff every row it does not skip has a numeric id and numeric coordinates |
| BufferTransform.ExpandBlocks | SAM/SAM/N_T_OB.py:49-60 | the output has five rows per kept row, and the block of the j-th kept row is at positions 5j..5j+4, so input order is kept |
| BufferTransform.OutputRow | SAM/SAM/N_T_OB.py:56-60 | output row 5j+k is copy k of the j-th kept input row |
| BufferTransform.OutputIdBelow | SAM/SAM/N_T_OB.py:56-60 | every output point id lies in 0..5P-1 when the input ids lie in 0..P-1 |
| BufferTransform.OutputIdPresent | SAM/SAM/N_T_OB.py:56-60 | every id in 0..5P-1 occurs in the output when every input id 0..P-1 occurs |
| BufferTransform.PointIdsRange | SAM/SAM/N_T_OB.py:56-60 | input point ids exactly 0..P-1 give output point ids exactly 0..5P-1 |
| BufferTransform.BufferPrep | SAM/SAM/N_T_OB.py:20-74 | a missing input raises FileNotFoundError naming it before anything is written, and only then; an existing input succeeds exactly when its expansion does, and otherwise raises the expansion's error, float()'s ValueError; the offsets default to 25 and 10 and the input is AV_DATASET when set; on success only the artifact in the results directory changes, and it holds the expansion of the input |
| BufferTransform.ExpandErrorIsValue | SAM/SAM/N_T_OB.py:56-60 | the only exception of the expansion is float()'s ValueError |
| BufferTransform.ExpandRows | SAM/SAM/N_T_OB.py:49-60 | the loop computes the expansion, including the first conversion error |
| BufferTransform.RunBufferPrep | SAM/SAM/N_T_OB.py:20-74 | the module body computes the transform's effect on the files |
| BufferTransform.WriteRows | SAM/SAM/N_T_OB.py:69-74 | the file system afterwards is the old one with the artifact holding exactly the expanded rows, in order |
| BufferedData.SkipsOnlyBlank | SAM/SAM/N_T_OB.py:52-53 | on a table whose non-blank rows have five or more fields the transform skips exactly the blank lines |
| BufferedData.NoBlankLines | SAM/SAM/N_Moving_Objects.py:53 | a table without blank lines is read as it is |
| BufferedData.MaxPlusOneOfSameSet | SAM/SAM/N_Moving_Objects.py:69-71 | a cardinality depends only on the set of values in the column |
| BufferedData.BufferedRows | SAM/SAM/N_T_OB.py:56-60 | the transform's output of a five-wide numeric table is five wide and numeric, row 5j+k being copy k of row j |
| BufferedData.NonBlankAreWide | SAM/SAM/N_T_OB.py:52-53 | in a rectangular five-column numeric table every line is blank or at least five fields wide |
| BufferedData.CopiesNumeric | SAM/SAM/N_T_OB.py:56-60 | rows laid out as the five copies of numeric rows are five-column numeric rows |
| BufferedData.SlotOf | SAM/SAM/N_T_OB.py:56-60 | every output position is the slot of exactly one (row, copy) pair |
| BufferedData.CopiedColumn | SAM/SAM/N_Moving_Objects.py:69-70 | a column that repeats each entry five times keeps its cardinality |
| BufferedData.ScaledColumn | SAM/SAM/N_Moving_Objects.py:71 | a column whose copy k of entry v is 5v+k has five times the cardinality |
| BufferedData.CardinalitiesOfCopies | SAM/SAM/N_Moving_Objects.py:69-71 | the copies of a table have the same con and tst, and five times its poi |
| BufferedData.BufferedCardinalities | SAM/SAM/N_Moving_Objects.py:165-186 | loading the artifact of a successful transform of a loadable dataset succeeds, with five times the rows, `poi` times five, `con` and `tst` unchanged |
| BufferedData.RecordsOfCopies | SAM/SAM/N_T_OB.py:56-60 | copy k of a record keeps its configuration and timestamp and gets point id 5p+k, so `con` and `tst` are kept and `poi` is multiplied by five |
| BufferedData.CopiesAsRecords | SAM/SAM/N_T_OB.py:56-60 | the records of the transformed table are the copies of the input records |
| MovingObjects.SetFlag | SAM/SAM/N_Moving_Objects.py:95 | the assigned flag takes the value; the other flags keep theirs |
| MovingObjects.ActiveSet | SAM/SAM/N_Moving_Objects.py:95 | a variant is active iff its flag is 1 |
| MovingObjects.Log | SAM/SAM/N_Moving_Objects.py:92-94 | an event is appended to the log and `av` is unchanged |
| MovingObjects.QuietTrans | SAM/SAM/N_Moving_Objects.py:124-151 | two quiet pieces of code in a row are quiet |
| MovingObjects.Import | SAM/SAM/N_Moving_Objects.py:29-39 | a successful import caches and binds the module; a failed one changes nothing; an analysis stage fails only with ImportError; a plot module that is on the path but not cached fails exactly with the error its drawing code raises, and one not on the path with ImportError; only N_T_OB touches the files |
| MovingObjects.PlotRun | SAM/SAM/N_VA_StaticAbsolute.py:25-115 | what running a plot module raises: the error of reading its dataset, or else the first failure of its drawing loops over the configurations with the `poi` and `tst` of `av` |
| MovingObjects.StageIsOpaque | SAM/SAM/N_Moving_Objects.py:125-151 | no analysis stage is N_T_OB or a visualisation, so importing one can only fail with ImportError |
| MovingObjects.Reload | SAM/SAM/N_Moving_Objects.py:193-194 | reloading a name never bound raises NameError and changes nothing; a bound module runs again, which is logged |
| MovingObjects.ImportOrWarn | SAM/SAM/N_Moving_Objects.py:29-39 | ImportError is swallowed and logged as a warning; a stage import never raises; a plot import raises exactly what the plot module raises when it is on the path and not yet cached, and then changes nothing; only N_T_OB touches the files |
| MovingObjects.EnabledModules | SAM/SAM/N_Moving_Objects.py:125-151 | a module is enabled iff one of the stages is toggled on and is that module |
| MovingObjects.ImportStages | SAM/SAM/N_Moving_Objects.py:124-151 | the stage imports never raise, never touch the files, and bind exactly the enabled stages that are cached or available |
| MovingObjects.ReloadStages | SAM/SAM/N_Moving_Objects.py:193-205 | the reloads change neither files nor cache nor bindings, and succeed iff every enabled stage was bound earlier |
| MovingObjects.BufferStep | SAM/SAM/N_Moving_Objects.py:158-218 | the buffer variant never lets an exception escape |
| MovingObjects.StaticImport | SAM/SAM/N_Moving_Objects.py:29-39 | a plot import raises iff its toggle is 1, the module is on the path and not cached, and its drawing raises; it then leaves the world unchanged with that error; otherwise the module is cached when toggled on and available; it is quiet and never touches the files |
| MovingObjects.Enter | SAM/SAM/N_Moving_Objects.py:92-95 | the banner is logged and the variant's flag becomes 1; the other flags and everything else in `av` and the host stay |
| MovingObjects.Leave | SAM/SAM/N_Moving_Objects.py:154 | the variant's flag becomes 0; the other flags, the rest of `av` and the host stay |
| MovingObjects.SelectDataset | SAM/SAM/N_Moving_Objects.py:106-117 | `dataset_name` is the path and `dataset_name_exclusive` its root; it raises iff the load does, with the load's error; on success `Df_dataset`, `tst` and `poi` are the loaded ones; the host is untouched |
| MovingObjects.FundamentalStep | SAM/SAM/N_Moving_Objects.py:91-154 | the fundamental variant; what it leaves is stated by VariantOutcomes.FundamentalOutcome and its discipline by PipelineFacts.FundamentalDiscipline |
| MovingObjects.BufferTry | SAM/SAM/N_Moving_Objects.py:164-205 | the try body of the buffer variant; VariantOutcomes.BufferFresh, BufferMissingArtifact and BufferOutcome state what it does |
| MovingObjects.RoughStep | SAM/SAM/N_Moving_Objects.py:222-261 | the rough variant; VariantOutcomes.RoughOutcome and PipelineFacts.RoughDiscipline state what it does |
| MovingObjects.BufferRoughTry | SAM/SAM/N_Moving_Objects.py:271-311 | the try body of the buffer+rough variant; VariantOutcomes.BufferRoughOutcome states what it does |
| MovingObjects.BufferRoughStep | SAM/SAM/N_Moving_Objects.py:265-316 | the buffer+rough variant; VariantOutcomes.BufferMissingInput and PipelineFacts.BufferRoughDiscipline state what it does |
| MovingObjects.Gate | SAM/SAM/N_Moving_Objects.py:91-316 | one variant behind its toggle; PipelineFacts.GateFacts states its effect |
| MovingObjects.RunVariants | SAM/SAM/N_Moving_Objects.py:91-316 | the variants in order until one raises; PipelineFacts.VariantsFacts states the entry order and flags |
| MovingObjects.Body | SAM/SAM/N_Moving_Objects.py:22-327 | one execution of the module body; PipelineFacts.BodyFacts states its discipline |
| MovingObjects.RunPipeline | SAM/SAM/GUI_streamlit.py:139-140 | import and then reload of the runner; an uncached import runs the body in a fresh namespace with no stage name bound, and the reload keeps that namespace; PipelineFacts.RunPipelineFacts states its discipline |
| PipelineFacts.ToggledOf | SAM/SAM/N_Moving_Objects.py:91-316 | a variant is visited iff it is listed and toggled on |
| PipelineFacts.AppendEvent | SAM/SAM/N_Moving_Objects.py:92-94 | one more event adds its entry, its report, and keeps at most one flag seen |
| PipelineFacts.ActiveSetOfSetFlag | SAM/SAM/N_Moving_Objects.py:95-154 | setting a flag to 1 adds the variant to the active set; any other value removes it |
| PipelineFacts.CalmTrans | SAM/SAM/N_Moving_Objects.py:97-151 | two calm pieces of code in a row are calm |
| PipelineFacts.CalmLog | SAM/SAM/N_Moving_Objects.py:124-151 | calm code enters no variant, reports nothing, and keeps every stage seeing at most one flag |
| PipelineFacts.CalmFacts | SAM/SAM/N_Moving_Objects.py:124-151 | the same facts for calm code between two worlds |
| PipelineFacts.QuietIsCalm | SAM/SAM/N_Moving_Objects.py:124-151 | quiet code is calm |
| PipelineFacts.SelectIsCalm | SAM/SAM/N_Moving_Objects.py:106-117 | selecting a dataset is calm and leaves the host as it was |
| PipelineFacts.BufferTryIsCalm | SAM/SAM/N_Moving_Objects.py:165-205 | the try body of the buffer variant is calm |
| PipelineFacts.BufferRoughTryIsCalm | SAM/SAM/N_Moving_Objects.py:272-311 | the try body of the buffer+rough variant is calm |
| PipelineFacts.EnterCalmLeave | SAM/SAM/N_Moving_Objects.py:95-154 | a flag set, calm code, and the flag cleared unless the code raised, keep the variant discipline |
| PipelineFacts.FundamentalDiscipline | SAM/SAM/N_Moving_Objects.py:91-154 | fundamental is entered once and does not report; its flag ends at 0, or at 1 when it raised; stages see only its flag |
| PipelineFacts.RoughDiscipline | SAM/SAM/N_Moving_Objects.py:222-261 | the same discipline for rough |
| PipelineFacts.BufferDiscipline | SAM/SAM/N_Moving_Objects.py:158-218 | the same discipline for buffer, whose flag always ends at 0 |
| PipelineFacts.BufferRoughDiscipline | SAM/SAM/N_Moving_Objects.py:265-316 | the same discipline for buffer+rough, whose flag stays 1 when a non-import error escapes |
| PipelineFacts.GateFacts | SAM/SAM/N_Moving_Objects.py:91-316 | a variant whose toggle is not 1 does nothing; one whose toggle is 1 keeps the discipline; buffer never raises |
| PipelineFacts.GateStep | SAM/SAM/N_Moving_Objects.py:91-316 | one gated variant's effect on flags, entries and reports, whether or not it raised |
| PipelineFacts.ComposeRaised | SAM/SAM/N_Moving_Objects.py:91-316 | a gated variant that raised ends the run: its entry is the last one entered, a prefix of the toggled order, with its flag still up |
| PipelineFacts.ComposeCompleted | SAM/SAM/N_Moving_Objects.py:91-316 | a gated variant that completed, followed by the rest of the run, gives the run's entry order and flag clearing |
| PipelineFacts.ClearedFlags | SAM/SAM/N_Moving_Objects.py:91-316 | clearing the first variant's flag and then those of the rest leaves every toggled variant's flag at 0 and every other flag as it was |
| PipelineFacts.VariantsFacts | SAM/SAM/N_Moving_Objects.py:91-316 | variants are entered in the fixed order, all toggled ones unless one raised; the one that raised is not buffer and keeps its flag at 1; every toggled variant clears its flag; no stage sees two flags |
| PipelineFacts.AllVariants | SAM/SAM/N_Moving_Objects.py:91-316 | the body visits every variant |
| PipelineFacts.BodyFacts | SAM/SAM/N_Moving_Objects.py:22-327 | one run either raises in a plot import before any variant, leaving `av` and the entries as they were, or enters the toggled variants in order; the report is printed once, and only when the run completes and none was printed before; the one-shot flag is then set |
| PipelineFacts.ComposeBodies | SAM/SAM/GUI_streamlit.py:139-140 | a completed body, then a second body with the runner cached, keep the pipeline discipline |
| PipelineFacts.CacheOrFail | SAM/SAM/GUI_streamlit.py:139-140 | a single body keeps the pipeline discipline |
| PipelineFacts.RunPipelineFacts | SAM/SAM/GUI_streamlit.py:139-140 | across the import and reload of the runner at most one report appears, none when an earlier run reported, and one when the run completes unreported; an uncached runner enters every toggled variant twice |
| PipelineFacts.UncachedIgnoresBound | SAM/SAM/GUI_streamlit.py:139 | when the runner is not cached, the outcome does not depend on the stage names an earlier run bound, because the import starts from an empty namespace |
| VariantOutcomes.EnabledStages | SAM/SAM/N_Moving_Objects.py:125-151 | a stage is kept iff it is listed and toggled on |
| VariantOutcomes.StageRuns | SAM/SAM/N_Moving_Objects.py:193-205 | one logged run per stage, in order, on the given dataset with the given flags |
| VariantOutcomes.ReloadSkip | SAM/SAM/N_Moving_Objects.py:193-205 | a stage toggled off is skipped |
| VariantOutcomes.ReloadRun | SAM/SAM/N_Moving_Objects.py:193-205 | a bound stage toggled on runs once and is logged |
| VariantOutcomes.ReloadStagesLog | SAM/SAM/N_Moving_Objects.py:193-205 | with every enabled stage bound, the log gains one run per enabled stage, in order |
| VariantOutcomes.ReloadStagesBound | SAM/SAM/N_Moving_Objects.py:193-205 | with every enabled stage bound, the reloads do not raise and change nothing but the log |
| VariantOutcomes.ReloadStagesError | SAM/SAM/N_Moving_Objects.py:193-205 | a failed reload names an enabled stage that was never bound |
| VariantOutcomes.LoadSameLines | SAM/SAM/N_Moving_Objects.py:43-73 | two files with the same lines load alike, except for the path named in an error |
| VariantOutcomes.FundamentalRoot | SAM/SAM/N_Moving_Objects.py:107 | the extension-free name of the fundamental copy is `<results>/N_C_PDPg_fundamental_Dataset` |
| VariantOutcomes.FundamentalOutcome | SAM/SAM/N_Moving_Objects.py:91-154 | the copy is made only when the absolute paths differ, and a missing source then raises; afterwards `dataset_name` is the copy, `dataset_name_exclusive` the copy without `.csv`, and the data are the source's; only copying or loading can fail |
| VariantOutcomes.RoughOutcome | SAM/SAM/N_Moving_Objects.py:222-261 | rough re-selects the fundamental copy; it fails iff the copy does not load or an enabled stage was never bound; on success it logs one run per enabled stage |
| VariantOutcomes.BufferCached | SAM/SAM/N_Moving_Objects.py:272 | a second `import N_T_OB` runs nothing and writes nothing |
| VariantOutcomes.BufferFresh | SAM/SAM/N_Moving_Objects.py:165 | the first `import N_T_OB` runs the transform on the AV_DATASET file, and fails exactly when the transform does |
| VariantOutcomes.BufferMissingArtifact | SAM/SAM/N_Moving_Objects.py:169-212 | a missing artifact is reported and swallowed; `dataset_name`, the data and the files stay as they were |
| VariantOutcomes.BufferMissingInput | SAM/SAM/N_Moving_Objects.py:158-316 | a missing transform input is swallowed by buffer, with its flag cleared, and escapes buffer+rough, with its flag still set |
| VariantOutcomes.BufferRoot | SAM/SAM/N_Moving_Objects.py:177 | the extension-free name of the buffer artifact is `<results>/N_C_PDPg_buffer_Dataset` |
| VariantOutcomes.BufferOutcome | SAM/SAM/N_Moving_Objects.py:165-218 | an error-free buffer variant analyses the artifact in the results directory |
| VariantOutcomes.BufferRoughOutcome | SAM/SAM/N_Moving_Objects.py:272-316 | an error-free buffer+rough variant analyses the artifact in the results directory, after moving a copy from the working directory |
| Runtime.Av.constructor | SAM/SAM/N_Moving_Objects.py:22-25 | the object holds the given state |
| Runtime.Av.SetActive | SAM/SAM/N_Moving_Objects.py:95 | only the named flag changes |
| Runtime.Av.PointAt | SAM/SAM/N_Moving_Objects.py:106-107 | only `dataset_name` and `dataset_name_exclusive` change |
| Runtime.Av.Load | SAM/SAM/N_Moving_Objects.py:108-115 | only `Df_dataset`, `tst` and `poi` change, to the loaded ones |
| Runtime.Interpreter.constructor | SAM/SAM/N_Moving_Objects.py:22-25 | the interpreter starts on the given `av` and host |
| Runtime.Interpreter.Emit | SAM/SAM/N_Moving_Objects.py:92-94 | the world gains the event |
| Runtime.Interpreter.Import | SAM/SAM/N_Moving_Objects.py:29-39 | the new world and the error are those of the functional import, including a plot module's drawing error |
| Runtime.Interpreter.RunPlot | SAM/SAM/N_VA_StaticAbsolute.py:25-115 | reading the dataset and running the drawing loops of the plot module raise exactly the functional plot error |
| Runtime.Interpreter.Reload | SAM/SAM/N_Moving_Objects.py:194 | the new world and the error are those of the functional reload |
| Runtime.Interpreter.ImportOrWarn | SAM/SAM/N_Moving_Objects.py:126-129 | the new world and the error are those of the guarded import |
| Runtime.Interpreter.ImportStage | SAM/SAM/N_Moving_Objects.py:125-129 | one guarded stage import advances the functional stage imports by one |
| Runtime.Interpreter.ImportStages | SAM/SAM/N_Moving_Objects.py:124-151 | the new world is that of the functional stage imports |
| Runtime.Interpreter.ReloadStage | SAM/SAM/N_Moving_Objects.py:193-194 | one guarded reload advances the functional reloads by one, or ends them with its error |
| Runtime.Interpreter.ReloadStages | SAM/SAM/N_Moving_Objects.py:193-205 | the new world and the error are those of the functional reloads |
| Runtime.Interpreter.Enter | SAM/SAM/N_Moving_Objects.py:92-95 | the banner is logged and the variant's flag set |
| Runtime.Interpreter.SelectDataset | SAM/SAM/N_Moving_Objects.py:106-117 | the new world and the error are those of the functional dataset selection |
| Runtime.Interpreter.Fundamental | SAM/SAM/N_Moving_Objects.py:91-154 | the new world and the error are those of the fundamental step |
| Runtime.Interpreter.BufferTry | SAM/SAM/N_Moving_Objects.py:164-205 | the new world and the error are those of the buffer try body |
| Runtime.Interpreter.Buffer | SAM/SAM/N_Moving_Objects.py:158-218 | the new world is that of the buffer step |
| Runtime.Interpreter.Rough | SAM/SAM/N_Moving_Objects.py:222-261 | the new world and the error are those of the rough step |
| Runtime.Interpreter.BufferRoughTry | SAM/SAM/N_Moving_Objects.py:271-311 | the new world and the error are those of the buffer+rough try body |
| Runtime.Interpreter.BufferRough | SAM/SAM/N_Moving_Objects.py:265-316 | the new world and the error are those of the buffer+rough step |
| Runtime.Interpreter.Gate | SAM/SAM/N_Moving_Objects.py:91-316 | one gated variant advances the functional run of the variants by one, or ends it with its error |
| Runtime.Interpreter.StaticImport | SAM/SAM/N_Moving_Objects.py:29-39 | the new world and the error are those of one guarded plot import, run only when its toggle is 1 |
| Runtime.Interpreter.RunAllVariants | SAM/SAM/N_Moving_Objects.py:91-316 | the new world and the error are those of the functional run of the four variants in order |
| Runtime.Interpreter.Body | SAM/SAM/N_Moving_Objects.py:22-327 | the new world and the error are those of one execution of the body |
| Runtime.Interpreter.RunPipeline | SAM/SAM/GUI_streamlit.py:139-140 | the new world and the error are those of import-then-reload of the runner |
| RunControl.KeysOf | SAM/SAM/GUI_streamlit.py:331-367 | the keys of the items, in order |
| RunControl.DictOf | SAM/SAM/GUI_streamlit.py:331-367 | the dictionary holds exactly the keys of the items |
| RunControl.PdpItems | SAM/SAM/GUI_streamlit.py:332-340 | the eight PDP items; RunControl.FundamentalForced and FlagsMirrorToggles state their values |
| RunControl.PdpNeeded | SAM/SAM/GUI_streamlit.py:346 | whether N_PDP must run; RunControl.PdpFollowsDependents states the resulting parameter |
| RunControl.ParamItems | SAM/SAM/GUI_streamlit.py:331-367 | the items of the dict display; RunControl.ParamKeys and KeysUniqueAfter state their keys |
| RunControl.Params | SAM/SAM/GUI_streamlit.py:331-367 | `params`; RunControl.ParamsKeys and the lemmas after it state its keys and values |
| RunControl.PathParam | SAM/SAM/GUI_streamlit.py:57-58 | a path given by the GUI or the default; RunControl.Session.RunInBackground uses it for the dataset and results paths |
| RunControl.LastItemWins | SAM/SAM/GUI_streamlit.py:343-346 | an item whose key does not recur later gives that key its value |
| RunControl.Trunc | SAM/SAM/GUI_streamlit.py:349-364 | `int()` truncates toward zero |
| RunControl.ModuleItems | SAM/SAM/GUI_streamlit.py:343 | one item per module key, in order, 1 iff the module is selected |
| RunControl.NumericItems | SAM/SAM/GUI_streamlit.py:349-364 | one item per numeric key, in order, holding the truncated input |
| RunControl.ParamKeys | SAM/SAM/GUI_streamlit.py:331-367 | the display's keys are the PDP keys, the module keys, N_PDP again, the numeric keys and the two paths |
| RunControl.DistinctConcat | SAM/SAM/GUI_streamlit.py:331-367 | key lists that are distinct and told apart by their first letter join into a distinct list |
| RunControl.TrailingDistinct | SAM/SAM/GUI_streamlit.py:349-366 | the numeric and path keys are distinct and start with neither N nor P |
| RunControl.PdpKeysDistinct | SAM/SAM/GUI_streamlit.py:332-340 | the PDP keys are distinct and start with P |
| RunControl.LaterModulesDistinct | SAM/SAM/GUI_streamlit.py:343-346 | the later module keys are distinct and start with N |
| RunControl.KeysUniqueAfter | SAM/SAM/GUI_streamlit.py:331-367 | the only key written twice is N_PDP, first in the comprehension |
| RunControl.ItemWins | SAM/SAM/GUI_streamlit.py:331-367 | every item except the comprehension's N_PDP decides its key's value |
| RunControl.PdpItemWins | SAM/SAM/GUI_streamlit.py:332-340 | every PDP item decides its key's value |
| RunControl.ParamsKeys | SAM/SAM/GUI_streamlit.py:331-367 | `params` holds exactly the 34 keys of the display |
| RunControl.FundamentalForced | SAM/SAM/GUI_streamlit.py:333-337 | `PDPg_fundamental` and `PDPg_fundamental_active` are 1 whatever the checkboxes say |
| RunControl.FlagsMirrorToggles | SAM/SAM/GUI_streamlit.py:334-340 | the buffer, rough and buffer+rough toggles are the checkboxes, and each `*_active` equals its toggle |
| RunControl.ModulesMirrorSelection | SAM/SAM/GUI_streamlit.py:343 | every module key but N_PDP is 1 exactly when it is selected |
| RunControl.PdpFollowsDependents | SAM/SAM/GUI_streamlit.py:343-346 | N_PDP is 1 iff it or a module depending on it is selected, and 0 otherwise |
| RunControl.NumbersTruncated | SAM/SAM/GUI_streamlit.py:349-364 | each numeric parameter is its truncated input |
| RunControl.PathsPassed | SAM/SAM/GUI_streamlit.py:365-366 | the dataset and results paths are passed unchanged |
| RunControl.SelectedAmong | SAM/SAM/GUI_streamlit.py:244 | exactly the keys whose attribute is 1, in the keys' order |
| RunControl.DefaultSelected | SAM/SAM/GUI_streamlit.py:244 | exactly the module keys whose `av` attribute is 1, in `module_options` order |
| RunControl.Applied | SAM/SAM/GUI_streamlit.py:130-132 | `av` keeps its attributes; each takes the parameter's value when there is one |
| RunControl.RunStatus | SAM/SAM/GUI_streamlit.py:143-155 | error iff the pipeline raised; stopped iff it did not and a stop was requested; finished otherwise |
| RunControl.Session.constructor | SAM/SAM/GUI_streamlit.py:36-47 | no thread, status idle, no stop requested, not finished, no log file |
| RunControl.Session.StartRun | SAM/SAM/GUI_streamlit.py:370-395 | a worker starts iff there is no thread or it is no longer alive, and starting clears the stop request; otherwise nothing changes |
| RunControl.Session.RequestStop | SAM/SAM/GUI_streamlit.py:398-399 | a stop is requested and nothing else changes |
| RunControl.Session.ApplyParams | SAM/SAM/GUI_streamlit.py:130-132 | only parameters whose key `av` already has are copied into it |
| RunControl.Session.RunInBackground | SAM/SAM/GUI_streamlit.py:50-177 | a missing dataset gives status error and leaves `av` alone; otherwise AV_DATASET and AV_RESULTS_DIR are set, `av` is configured with the parameters over the reloaded attributes and then receives the pipeline's own writes, the status follows the pipeline and the stop request, and finished iff finished; in every case AV_SKIP_LOAD ends at '1' and the thread slot is emptied |
| RunControl.Session.Launch | SAM/SAM/GUI_streamlit.py:60-155 | once the dataset exists: the environment points at the dataset and results, `av` is the applied parameters plus the pipeline's writes, and the status is the pipeline's |
| RunControl.Session.CanStart | SAM/SAM/GUI_streamlit.py:370 | a worker may start when there is none or it has died; RunControl.Session.StartRun states its use |
| Plots.SamplesOf | SAM/SAM/N_VA_StaticAbsolute.py:38-42 | one sample per record, with its configuration, x and y |
| Plots.Configurations | SAM/SAM/N_VA_StaticAbsolute.py:28 | every configuration that occurs, each once; Plots.ConfigurationsOrder states that they are in order of first appearance |
| Plots.ConfigurationsOrder | SAM/SAM/N_VA_StaticAbsolute.py:28 | `unique()` keeps first-appearance order: for i < j, every row of the j-th configuration comes after some row of the i-th |
| Plots.RowsOf | SAM/SAM/N_VA_StaticAbsolute.py:38 | only rows of the configuration, and every such row; Plots.RowsOfSelect states multiplicity and file order |
| Plots.RowsOfSelect | SAM/SAM/N_VA_StaticAbsolute.py:38 | each row of the configuration occurs as often as in the data frame, other rows never, and in file order (a subsequence), which fixes the sample at each `iloc` position |
| Plots.ConfigurationNotEmpty | SAM/SAM/N_VA_StaticAbsolute.py:37-38 | every enumerated configuration has a row |
| Plots.SlotInBounds | SAM/SAM/N_VA_StaticAbsolute.py:89-94 | with p < poi and i < tst the row `p + i*poi` is below `tst*poi` |
| Plots.LastSlot | SAM/SAM/N_VA_StaticAbsolute.py:89-94 | the last point at the last timestamp is row `tst*poi - 1` |
| Plots.SlotInjective | SAM/SAM/N_VA_StaticAbsolute.py:91-94 | different (point, timestamp) pairs read different rows |
| Plots.PaletteShape | SAM/SAM/N_VA_StaticAbsolute.py:31-34 | three points get the fixed three colours; otherwise exactly `poi` cividis shades, shade i being `i/poi` |
| Plots.PaletteDistinguishesPoints | SAM/SAM/N_VA_StaticAbsolute.py:100 | `colors[p % len(colors)]` is in bounds and different points get different colours |
| Plots.SlotOrder | SAM/SAM/N_VA_StaticAbsolute.py:91-94 | later timestamps of a point are further down, one `poi` apart |
| Plots.PointArrows | SAM/SAM/N_VA_StaticAbsolute.py:90-109 | the m arrows of point p, arrow i joining its rows at timestamps i and i+1 |
| Plots.Arrows | SAM/SAM/N_VA_StaticAbsolute.py:89-109 | `tst - 1` arrows per point |
| Plots.ArrowsSnoc | SAM/SAM/N_VA_StaticAbsolute.py:89 | one more point appends its arrows |
| Plots.ArrowAt | SAM/SAM/N_VA_StaticAbsolute.py:89-109 | arrow `p*(tst-1) + i` is point p's segment from timestamp i to i+1 |
| Plots.ArrowsChain | SAM/SAM/N_VA_StaticAbsolute.py:91-94 | each arrow of a point starts where the previous one ends |
| Plots.XCoords | SAM/SAM/N_VA_StaticAbsolute.py:96 | `x_coords` holds two entries per arrow |
| Plots.YCoords | SAM/SAM/N_VA_StaticAbsolute.py:97 | `y_coords` holds two entries per arrow |
| Plots.CoordsAt | SAM/SAM/N_VA_StaticAbsolute.py:91-97 | entries 2n and 2n+1 of `x_coords` and `y_coords` are arrow n's start and end |
| Plots.CoordsSnoc | SAM/SAM/N_VA_StaticAbsolute.py:96-97 | one more arrow extends each list by its two end points |
| Plots.PointArrowsSnoc | SAM/SAM/N_VA_StaticAbsolute.py:90 | one more interval appends its segment |
| Plots.Tags | SAM/SAM/N_VA_StaticAbsolute.py:111-113 | one label per point, at its row of timestamp 0 |
| Plots.TagsSnoc | SAM/SAM/N_VA_StaticAbsolute.py:111-113 | one more point appends its label |
| Plots.Dots | SAM/SAM/N_VA_StaticAbsolute.py:82-85 | one dot per row, row k in `colors[k % len(colors)]` |
| Plots.PlotSamples | SAM/SAM/N_VA_StaticAbsolute.py:25-42 | a read error propagates; with the file read, the samples exist iff every row has the x and y columns and numbers in columns 0, 3 and 4, and are those columns row by row; otherwise KeyError or TypeError |
| Plots.FailureFrom | SAM/SAM/N_VA_StaticAbsolute.py:37-38 | no failure iff every configuration draws; otherwise the failure of the first configuration, in order of appearance, that does not |
| Plots.FailureFromAt | SAM/SAM/N_VA_StaticAbsolute.py:37-38 | when configuration n fails and none before it does, its error is the one raised |
| Plots.FirstMissing | SAM/SAM/N_VA_StaticAbsolute.py:90-94 | the first timestamp of a point whose row is missing, every earlier one present |
| Plots.FirstIncomplete | SAM/SAM/N_VA_StaticAbsolute.py:89-94 | the first point with a missing row, every earlier point complete |
| Plots.SlotFailure | SAM/SAM/N_VA_StaticAbsolute.py:89-94 | the first row the loops read that is past the rows |
| Plots.SlotFailureReached | SAM/SAM/N_VA_StaticAbsolute.py:89-94 | with fewer than `tst*poi` rows, the first missing row is read by an existing point and timestamp, and every read before it is in range |
| Plots.SlotFailureAt | SAM/SAM/N_VA_StaticAbsolute.py:89-94 | when point p is the first incomplete point, the loops' failing read is the first missing row of point p, and it lies within `tst*poi` |
| Plots.Palette | SAM/SAM/N_VA_StaticAbsolute.py:31-34 | the colour list; Plots.PaletteShape states its shape |
| Plots.Segment | SAM/SAM/N_VA_StaticAbsolute.py:91-100 | one arrow; StaticAbsolute.ExpectedSegments states its ends and colour |
| StaticAbsolute.Drawable | SAM/SAM/N_VA_StaticAbsolute.py:82-94 | when a configuration's rows suffice; StaticAbsolute.Failure states it as the absence of an error |
| StaticAbsolute.Failure | SAM/SAM/N_VA_StaticAbsolute.py:82-115 | no error iff the rows suffice; with several timestamps the error is IndexError at a row past the configuration's rows, and with one it is ZeroDivisionError |
| StaticAbsolute.PlotFailure | SAM/SAM/N_VA_StaticAbsolute.py:37-115 | the error of the whole plot; Plots.FailureFrom states it is that of the first configuration that cannot be drawn |
| StaticAbsolute.Expected | SAM/SAM/N_VA_StaticAbsolute.py:82-115 | the figure of one configuration; StaticAbsolute.ExpectedCounts, ExpectedSegments and ExpectedTags state its contents |
| StaticAbsolute.ExpectedCounts | SAM/SAM/N_VA_StaticAbsolute.py:87-115 | `vector_index` ends at `poi*(tst-1)`, equal to the arrows drawn, the coordinate lists have twice that length, and there is one label per point |
| StaticAbsolute.ExpectedSegments | SAM/SAM/N_VA_StaticAbsolute.py:89-100 | segment (p, i) runs from row `p + i*poi` to row `p + (i+1)*poi`, both below `tst*poi`, in colour `colors[p % len(colors)]` |
| StaticAbsolute.ExpectedTags | SAM/SAM/N_VA_StaticAbsolute.py:111-113 | label `p{p}` sits at point p's timestamp-0 position |
| StaticAbsolute.Scatter | SAM/SAM/N_VA_StaticAbsolute.py:82-85 | one dot per row, coloured cyclically; dividing by the empty colour list raises ZeroDivisionError, and only that |
| StaticAbsolute.DrawPoint | SAM/SAM/N_VA_StaticAbsolute.py:90-115 | point p's inner loop succeeds iff its last row exists; it appends its arrows, their end points, its one label and one count per arrow; otherwise it raises IndexError at the first of its rows that is missing |
| StaticAbsolute.DrawSegments | SAM/SAM/N_VA_StaticAbsolute.py:87-115 | the loops succeed iff all `tst*poi` rows exist; they then leave every arrow, its end points, one label per point and `vector_index` counting the arrows; otherwise IndexError at the first missing row the loops read |
| StaticAbsolute.DrawConfiguration | SAM/SAM/N_VA_StaticAbsolute.py:82-115 | one configuration raises exactly its StaticAbsolute.Failure, and when it does not the figure is the expected one |
| StaticAbsolute.DrawAll | SAM/SAM/N_VA_StaticAbsolute.py:37-115 | one figure per configuration in order of first appearance, stopping at the first that cannot be drawn, whose error is raised |
| StaticAbsoluteTennis.Expected | SAM/SAM/N_VA_StaticAbsolute_tennis.py:74-97 | the figure of one configuration; StaticAbsoluteTennis.ExpectedCounts and SameAsStaticAbsolute state its contents |
| StaticAbsoluteTennis.ExpectedCounts | SAM/SAM/N_VA_StaticAbsolute_tennis.py:81-97 | `vector_index` ends at `poi*(tst-1)`, equal to the arrows drawn, with one label per point at its timestamp-0 position |
| StaticAbsoluteTennis.SameAsStaticAbsolute | SAM/SAM/N_VA_StaticAbsolute_tennis.py:27-97 | the dots, arrows, labels and counter are those of N_VA_StaticAbsolute |
| StaticAbsoluteTennis.DrawPoint | SAM/SAM/N_VA_StaticAbsolute_tennis.py:84-97 | point p's inner loop succeeds iff its last row exists; it appends its arrows, its label and one count per arrow; otherwise it raises IndexError at the first of its rows that is missing |
| StaticAbsoluteTennis.DrawSegments | SAM/SAM/N_VA_StaticAbsolute_tennis.py:81-97 | the loops succeed iff all `tst*poi` rows exist, leaving every arrow, one label per point and `vector_index` counting the arrows; otherwise IndexError at the first missing row the loops read |
| StaticAbsoluteTennis.DrawConfiguration | SAM/SAM/N_VA_StaticAbsolute_tennis.py:74-97 | one configuration raises exactly the error N_VA_StaticAbsolute raises for it, and when it does not the figure is the expected one |
| StaticAbsoluteTennis.DrawAll | SAM/SAM/N_VA_StaticAbsolute_tennis.py:33-97 | one figure per configuration in order of first appearance, stopping at the first that cannot be drawn with the error N_VA_StaticAbsolute raises |
| TennisCourt.CourtColours | SAM/SAM/N_VA_TennisCourt.py:26-37 | the colour list; TennisCourt.CourtPalettes states its shape |
| TennisCourt.CourtLabels | SAM/SAM/N_VA_TennisCourt.py:26-37 | the legend labels; TennisCourt.CourtPalettes states their shape |
| TennisCourt.CourtPalettes | SAM/SAM/N_VA_TennisCourt.py:26-37 | exactly `poi` colours and labels; beyond 2 and 3 points, colour i is Set3 entry `i mod 12` and label i is `Punt i`; lookups modulo `poi` are in bounds |
| TennisCourt.TrackX | SAM/SAM/N_VA_TennisCourt.py:82-84 | `tst` x values, the i-th read at row `p + i*poi` |
| TennisCourt.TrackY | SAM/SAM/N_VA_TennisCourt.py:82-85 | `tst` y values, the i-th read at row `p + i*poi` |
| TennisCourt.Hops | SAM/SAM/N_VA_TennisCourt.py:105-131 | one arrow fewer than positions |
| TennisCourt.Texts | SAM/SAM/N_VA_TennisCourt.py:145 | `p{p}` at position 0 and the empty text everywhere else |
| TennisCourt.HopsAreSegments | SAM/SAM/N_VA_TennisCourt.py:105-110 | point p's `tst - 1` arrows are its segments between consecutive timestamps |
| TennisCourt.Traces | SAM/SAM/N_VA_TennisCourt.py:88-152 | two traces per point |
| TennisCourt.PointTraces | SAM/SAM/N_VA_TennisCourt.py:88-152 | the path and position traces of one point; TennisCourt.ExpectedShape and TracesAt state their contents |
| TennisCourt.Markers | SAM/SAM/N_VA_TennisCourt.py:53-74 | marker k at row k, named `p{k}`, with colour and label taken modulo their lengths |
| TennisCourt.Drawable | SAM/SAM/N_VA_TennisCourt.py:50-85 | when a configuration's rows suffice; TennisCourt.Failure states it as the absence of an error |
| TennisCourt.Failure | SAM/SAM/N_VA_TennisCourt.py:50-152 | no error iff the rows suffice; otherwise IndexError at a row past the configuration's rows |
| TennisCourt.MarkerFailure | SAM/SAM/N_VA_TennisCourt.py:51-56 | with one timestamp and fewer rows than points, the error is at the first missing row |
| TennisCourt.PlotFailure | SAM/SAM/N_VA_TennisCourt.py:40-152 | the error of the whole plot; Plots.FailureFrom states it is that of the first configuration that cannot be drawn |
| TennisCourt.Expected | SAM/SAM/N_VA_TennisCourt.py:50-152 | the court of one configuration; TennisCourt.ExpectedShape and TracesAt state its contents |
| TennisCourt.ExpectedShape | SAM/SAM/N_VA_TennisCourt.py:77-152 | there are two traces per point and `poi*(tst-1)` arrows; point p's path and position traces follow its `tst` positions, and its texts are `p{p}` then empty |
| TennisCourt.TracesAt | SAM/SAM/N_VA_TennisCourt.py:77-152 | traces 2p and 2p+1 are point p's |
| TennisCourt.DrawMarkers | SAM/SAM/N_VA_TennisCourt.py:51-74 | markers are drawn iff there are `poi` rows; otherwise IndexError at the first missing row |
| TennisCourt.Trajectory | SAM/SAM/N_VA_TennisCourt.py:77-85 | the trajectory is read iff its last row exists; otherwise IndexError at the first of its rows that is missing |
| TennisCourt.AddArrows | SAM/SAM/N_VA_TennisCourt.py:105-131 | appends one arrow per pair of consecutive positions |
| TennisCourt.DrawPoint | SAM/SAM/N_VA_TennisCourt.py:77-152 | point p adds its two traces and its arrows iff its rows exist; otherwise IndexError at the first of its rows that is missing |
| TennisCourt.DrawnSnoc | SAM/SAM/N_VA_TennisCourt.py:77-152 | drawing point p after points 0..p-1 gives the traces and arrows of points 0..p |
| TennisCourt.DrawNextPoint | SAM/SAM/N_VA_TennisCourt.py:77-152 | one step of the point loop: either the loop's exact TennisCourt.Failure, or points 0..p drawn, with the first incomplete point still ahead |
| TennisCourt.NoFailure | SAM/SAM/N_VA_TennisCourt.py:75-152 | when there are no timestamps, or the last point's last row exists, the trajectory loops raise nothing |
| TennisCourt.DrawTrajectories | SAM/SAM/N_VA_TennisCourt.py:75-152 | every point is drawn iff all `tst*poi` rows exist; the error is exactly TennisCourt.Failure |
| TennisCourt.DrawConfiguration | SAM/SAM/N_VA_TennisCourt.py:50-152 | one court raises exactly its TennisCourt.Failure, and when it does not it is the expected one |
| TennisCourt.DrawAll | SAM/SAM/N_VA_TennisCourt.py:40-152 | one court per configuration in order of first appearance, stopping at the first that cannot be drawn, whose error is raised |

## Left out

- Printing, banners, elapsed-time measurement, `tqdm` and the log file's contents. Only the completion report and the variant banners are kept, as events in a log.
- `os.makedirs`: directories are not modelled, and any path can be written. N_T_OB.py opens its artifact at line 69 without creating a directory. The write succeeds in the source only because the results directory already exists: GUI_streamlit.py line 62 or N_Moving_Objects.py line 99 created it, or the path defaulted to the working directory (N_T_OB.py line 63). The model does not check that the directory exists.
- Python's import machinery is reduced to three sets: modules on the import path, modules in `sys.modules`, and names bound in N_Moving_Objects. What the analysis stages (N_PDP, N_VA_HeatMap, N_VA_HClust, N_VA_Mds, N_VA_TopK) compute is not part of this model; their execution is a logged event recording the dataset and the active flags. The stage bodies are assumed never to raise and never to write `av` or any file, so importing or reloading a stage fails only when it is missing or unbound.
- The settings module `av.py` is not part of this model. Its attributes are a state record. What `importlib.reload(av)` leaves in them is the parameter `reloaded` of `RunControl.Session.RunInBackground`.
- RunControl.Session.RunInBackground: whether importing and reloading N_Moving_Objects raises is the parameter `pipelineFails`, and what it writes to `av` (`dataset_name`, `Df_dataset`, `con`/`tst`/`poi`, the flags, the one-shot flag) is the parameter `writes`; neither is computed from `MovingObjects.RunPipeline`, whose `av` is a record of a different shape. The ghost field `configured` holds `av` as the run configured it, before those writes. A failure of `importlib.reload(av)` itself, before the parameters are copied, and the outer "critical error" handler (lines 170-172) are not modelled.
- RunControl.Session.Launch: it takes the same parameters `writes` and `pipelineFails` as RunControl.Session.RunInBackground, its only caller. What the pipeline writes to `av` and whether it raises are given to it, not computed from `MovingObjects.RunPipeline`.
- Threads, their liveness, `daemon`, stdout/stderr redirection, `st.rerun` and all widgets. A stop request that arrives while the worker runs is the value of `stopRequested` when the worker checks it.
- pandas `read_csv`: a line whose width differs from the first line's is rejected as ragged (pandas would pad shorter lines with NaN). Numeric parsing and `np.float32` are abstract: a cell is a number or not. All coordinates are integers, and `round(..., 2)` is the identity.
- `SetDataForPDPType` (N_Moving_Objects.py lines 77-87) has no caller in the modelled code.
- `os.path.abspath` does not normalise `.`, `..` or repeated slashes.
- All drawing: matplotlib and plotly calls, the court geometry, arrow head sizes, titles, figure sizes, output file names, `savefig`, `write_html` and kaleido. The figures are the lists of dots, arrows, labels and traces the loops produce. The figure files are not written to the modelled file system, and an error while saving them is not modelled.
- Plots.PlotSamples: a text cell in column 0, 3 or 4 is reported as TypeError (`TextColumn`) before any configuration is drawn. For columns 3 and 4 in N_VA_StaticAbsolute.py this is what happens: `x.max() - x.min()` at lines 45-46 raises TypeError for the first configuration, before any read by index. `TextColumn` differs from the source in exactly these cases. (1) Text in column 0: both plot modules group text configurations and raise nothing because of it. (2) Text in column 3 or 4 in N_VA_TennisCourt.py when `tst <= 1` or `poi <= 0`: no subtraction is reached, so the module plots the text values or raises the IndexError of the `tst == 1` markers (lines 51-55). (3) Text in column 3 or 4 in N_VA_TennisCourt.py when `tst >= 2` and a row of point 0 of the first configuration is missing: the IndexError at lines 83-85 comes before the TypeError at `dx = x2 - x1` (line 112). The column number carried by `TextColumn` is extra detail. The plot modules' other imports (`tennis_court_draw`, `plotly.express`, matplotlib) and the attributes `av.min_boundary_*` are assumed present. pandas' IndexError carries no index; the index in `IndexOutOfRange` is extra detail.
- The cividis and Set3 colour values are abstract: only the shade `i/poi` and the palette index `i mod 12` are kept. The text formatting of `p{p}` and `Punt {i}` is a constructor holding the number.
- The relative order in which matplotlib draws arrows and labels: the model keeps arrows and labels in two separate lists.
- N_VA_StaticAbsolute_tennis.py reads the dataset with a header row and named columns (`constant`, `x`, `y`), and saves to a hard-coded absolute folder. The model takes the same samples as the other visualisations. The runner never imports this module.
- `__init__.py` only re-exports names.

## Notes on the source

- `PDPg_fundamental_active` is preset to 1 by the GUI (line 337). A GUI run therefore starts with a flag already set. The facts that "no stage sees two flags" assume that no flag is set when the run starts, so they do not apply to GUI runs.
- The GUI worker imports N_Moving_Objects and then reloads it. When the module was not cached, the body therefore runs twice and every toggled variant is entered twice. The one-shot flag `_moving_objects_printed` is read when the body starts and set only at its end, so the second body never prints the completion report. If the first body completes and the reload then raises, one report has already been printed. `PipelineFacts.RunPipelineFacts` states these facts.
- The buffer transform reads `AV_DATASET` when it is set, and not the current `dataset_name` (N_T_OB.py line 26). Python caches the module, so the second `import N_T_OB` (N_Moving_Objects.py line 272) runs nothing. `VariantOutcomes.BufferFresh` and `VariantOutcomes.BufferCached` state both facts.
- The buffer+rough variant catches only ImportError. Any other exception escapes with `PDPg_bufferrough_active` still 1 (`VariantOutcomes.BufferMissingInput`).
- An empty or all-blank dataset already raises EmptyDataError in `pd.read_csv` (`Loader.ReadTable`, and `Loader.LoadedOf` needs at least one row), so the `... if len(df_num) else 0` branches of N_Moving_Objects.py lines 69-71 can never be taken. `Loader.MaxPlusOne` keeps them as written.
- In StaticAbsolute, `poi = 0` with `tst = 1` makes the colour list empty, and the first `k % len(colors)` raises ZeroDivisionError (`StaticAbsolute.Scatter`).
