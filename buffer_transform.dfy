/**
 * The buffer transform of N_T_OB.py: every line with at least five fields
 * becomes five lines, the point shifted left, right, not at all, down and up
 * shiftY the buffer offsets, each with the re-derived point id `p*5 + k`.
 */
module BufferTransform {
  import opened Wrappers
  import opened Files
  import opened Sequences

  /** Offsets used when the settings module defines no `buffer_x` / `buffer_y`. */
  const DEFAULT_BUFFER_X: int := 25
  const DEFAULT_BUFFER_Y: int := 10
  /** The artifact the transform writes into the results directory. */
  const OUTPUT_NAME := "N_C_PDPg_buffer_Dataset.csv"
  /** The number of copies made of every point. */
  const COPIES := 5

  /** Lines that are blank or have fewer than five fields are skipped. */
  predicate WellFormed(line: Line) {
    |line| >= 5
  }

  /** The three fields the transform reads as numbers are numbers. */
  predicate Numeric(line: Line)
    requires WellFormed(line)
  {
    line[2].Num? && line[3].Num? && line[4].Num?
  }

  /**
   * What the loop body appends for one well-formed line, in the order of the
   * five `append` calls; a field that `float()` rejects raises ValueError,
   * checked in the order the fields are converted.
   */
  function ExpandLine(line: Line, shiftX: int, shiftY: int): Result<seq<Line>, Error>
    requires WellFormed(line)
  {
    if line[2].Text? then Err(NotANumber(line[2].text))
    else if line[3].Text? then Err(NotANumber(line[3].text))
    else if line[4].Text? then Err(NotANumber(line[4].text))
    else
      var p, x, y := line[2].value, line[3].value, line[4].value;
      Ok([ [line[0], line[1], Num(p * 5 + 0), Num(x - shiftX), line[4]],
           [line[0], line[1], Num(p * 5 + 1), Num(x + shiftX), line[4]],
           [line[0], line[1], Num(p * 5 + 2), line[3], line[4]],
           [line[0], line[1], Num(p * 5 + 3), line[3], Num(y - shiftY)],
           [line[0], line[1], Num(p * 5 + 4), line[3], Num(y + shiftY)] ])
  }

  /**
   * The rows collected from `lines`, processed first to last; the first line
   * that raises aborts the whole transform.
   */
  function Expand(lines: seq<Line>, shiftX: int, shiftY: int): Result<seq<Line>, Error>
  {
    if lines == [] then Ok([])
    else
      var last := lines[|lines| - 1];
      match Expand(lines[..|lines| - 1], shiftX, shiftY)
      case Err(e) => Err(e)
      case Ok(prev) =>
        if !WellFormed(last) then Ok(prev)
        else match ExpandLine(last, shiftX, shiftY)
          case Err(e) => Err(e)
          case Ok(rows) => Ok(prev + rows)
  }

  /** The input lines the transform does not skip, in input order. */
  function WellFormedLines(lines: seq<Line>): (wf: seq<Line>)
    ensures |wf| <= |lines|
    ensures forall j :: 0 <= j < |wf| ==> WellFormed(wf[j])
  {
    if lines == [] then []
    else
      var prev := WellFormedLines(lines[..|lines| - 1]);
      if WellFormed(lines[|lines| - 1]) then prev + [lines[|lines| - 1]] else prev
  }

  /**
   * The kept lines are exactly the well-formed input lines, each as often
   * as it occurs, and they keep their input order.
   */
  lemma {:induction false} WellFormedLinesSelect(lines: seq<Line>)
    ensures forall l :: l in WellFormedLines(lines) <==> l in lines && WellFormed(l)
    ensures forall l :: multiset(WellFormedLines(lines))[l] == if WellFormed(l) then multiset(lines)[l] else 0
    ensures Subsequence(WellFormedLines(lines), lines)
  {
    if lines != [] {
      var init, last := lines[..|lines| - 1], lines[|lines| - 1];
      var prev := WellFormedLines(init);
      WellFormedLinesSelect(init);
      assert lines == init + [last];
      assert forall l :: l in lines <==> l in init || l == last;
      assert multiset(lines) == multiset(init) + multiset{last};
      SubsequenceSnoc(prev, init, last);
      if WellFormed(last) {
        assert multiset(prev + [last]) == multiset(prev) + multiset{last};
      }
    }
  }

  // ---------------------------------------------------------------------------
  // An independent description of the k-th copy of a point

  /** Direction of the x shift of copy k: left, right, then none. */
  function Dx(k: int): int {
    if k == 0 then -1 else if k == 1 then 1 else 0
  }

  /** Direction of the y shift of copy k: none for the first three, then down, up. */
  function Dy(k: int): int {
    if k == 3 then -1 else if k == 4 then 1 else 0
  }

  /** Copy k of a numeric line: same configuration and timestamp, id `p*5 + k`, shifted point. */
  function Copy(line: Line, k: int, shiftX: int, shiftY: int): Line
    requires WellFormed(line) && Numeric(line)
  {
    [line[0], line[1], Num(line[2].value * COPIES + k),
     Num(line[3].value + Dx(k) * shiftX), Num(line[4].value + Dy(k) * shiftY)]
  }

  /** A well-formed line expands iff its three numeric fields are numbers, into its five copies in order. */
  lemma ExpandLineCopies(line: Line, shiftX: int, shiftY: int)
    requires WellFormed(line)
    ensures ExpandLine(line, shiftX, shiftY).Ok? <==> Numeric(line)
    ensures ExpandLine(line, shiftX, shiftY).Ok? ==>
      var rows := ExpandLine(line, shiftX, shiftY).value;
      |rows| == COPIES && forall k :: 0 <= k < COPIES ==> rows[k] == Copy(line, k, shiftX, shiftY)
  {
    if Numeric(line) {
      var rows := ExpandLine(line, shiftX, shiftY).value;
      assert rows[0] == Copy(line, 0, shiftX, shiftY);
      assert rows[1] == Copy(line, 1, shiftX, shiftY);
      assert rows[2] == Copy(line, 2, shiftX, shiftY);
      assert rows[3] == Copy(line, 3, shiftX, shiftY);
      assert rows[4] == Copy(line, 4, shiftX, shiftY);
    }
  }

  /** The id of copy k encodes the point and the copy: `id div 5 = p`, `id mod 5 = k`. */
  lemma CopyIdDecodes(line: Line, k: int, shiftX: int, shiftY: int)
    requires WellFormed(line) && Numeric(line) && 0 <= k < COPIES
    ensures Copy(line, k, shiftX, shiftY)[2].value / COPIES == line[2].value
    ensures Copy(line, k, shiftX, shiftY)[2].value % COPIES == k
  {
  }

  /** Distinct (point, copy) pairs get distinct ids. */
  lemma IdsInjective(p1: int, k1: int, p2: int, k2: int)
    requires 0 <= k1 < COPIES && 0 <= k2 < COPIES
    requires p1 * COPIES + k1 == p2 * COPIES + k2
    ensures p1 == p2 && k1 == k2
  {
    assert (p1 * COPIES + k1) / COPIES == p1;
    assert (p2 * COPIES + k2) / COPIES == p2;
  }

  /** Configuration and timestamp are copied unchanged; fields after the fifth are dropped. */
  lemma CopyKeepsKeys(line: Line, k: int, shiftX: int, shiftY: int)
    requires WellFormed(line) && Numeric(line)
    ensures |Copy(line, k, shiftX, shiftY)| == 5
    ensures Copy(line, k, shiftX, shiftY)[0] == line[0] && Copy(line, k, shiftX, shiftY)[1] == line[1]
  {
  }

  /** Copy 2 is the input line itself, cut to five fields. */
  lemma CentreCopyVerbatim(line: Line, shiftX: int, shiftY: int)
    requires WellFormed(line) && Numeric(line)
    ensures Copy(line, 2, shiftX, shiftY)[..2] == line[..2] && Copy(line, 2, shiftX, shiftY)[3..] == line[3..5]
  {
  }

  /** Copies 0 and 1 are mirror images about the point along x, copies 3 and 4 along y. */
  lemma CopiesMirror(line: Line, shiftX: int, shiftY: int)
    requires WellFormed(line) && Numeric(line)
    ensures Copy(line, 0, shiftX, shiftY)[3].value + Copy(line, 1, shiftX, shiftY)[3].value == 2 * line[3].value
    ensures Copy(line, 0, shiftX, shiftY)[4] == Copy(line, 1, shiftX, shiftY)[4] == Num(line[4].value)
    ensures Copy(line, 3, shiftX, shiftY)[4].value + Copy(line, 4, shiftX, shiftY)[4].value == 2 * line[4].value
    ensures Copy(line, 3, shiftX, shiftY)[3] == Copy(line, 4, shiftX, shiftY)[3] == Num(line[3].value)
  {
  }

  // ---------------------------------------------------------------------------
  // Properties of the whole transform

  /** Once a prefix of the input raises, the whole transform raises the same error. */
  lemma {:induction false} ExpandErrPersists(lines: seq<Line>, i: nat, shiftX: int, shiftY: int)
    requires i <= |lines| && Expand(lines[..i], shiftX, shiftY).Err?
    ensures Expand(lines, shiftX, shiftY) == Expand(lines[..i], shiftX, shiftY)
    decreases |lines| - i
  {
    if i < |lines| {
      assert lines[..i + 1][..i] == lines[..i];
      ExpandErrPersists(lines, i + 1, shiftX, shiftY);
    } else {
      assert lines[..i] == lines;
    }
  }

  /** Every line of `lines` is well-formed and has numeric id and coordinates. */
  predicate Convertible(lines: seq<Line>) {
    forall j :: 0 <= j < |lines| ==> WellFormed(lines[j]) && Numeric(lines[j])
  }

  /** The transform succeeds iff every well-formed line has numeric id and coordinates. */
  lemma {:induction false} ExpandOkIff(lines: seq<Line>, shiftX: int, shiftY: int)
    ensures Expand(lines, shiftX, shiftY).Ok? <==> Convertible(WellFormedLines(lines))
  {
    if lines != [] {
      var init := lines[..|lines| - 1];
      var last := lines[|lines| - 1];
      ExpandOkIff(init, shiftX, shiftY);
      var wf0 := WellFormedLines(init);
      var wf := WellFormedLines(lines);
      if WellFormed(last) {
        ExpandLineCopies(last, shiftX, shiftY);
        assert wf == wf0 + [last];
        assert wf[|wf0|] == last;
        assert forall j :: 0 <= j < |wf0| ==> wf[j] == wf0[j];
        assert Convertible(wf) <==> Convertible(wf0) && Numeric(last);
        assert Expand(lines, shiftX, shiftY).Ok? <==> Expand(init, shiftX, shiftY).Ok? && Numeric(last);
      } else {
        assert wf == wf0;
      }
    }
  }

  /**
   * Output layout: five rows per well-formed input line, the block of the j-th
   * well-formed line at positions 5j..5j+4, so input order is kept.
   */
  lemma {:induction false} ExpandBlocks(lines: seq<Line>, shiftX: int, shiftY: int)
    requires Expand(lines, shiftX, shiftY).Ok?
    ensures var rows := Expand(lines, shiftX, shiftY).value;
      var wf := WellFormedLines(lines);
      && |rows| == COPIES * |wf|
      && forall j :: 0 <= j < |wf| ==> Numeric(wf[j]) && ExpandLine(wf[j], shiftX, shiftY) == Ok(rows[COPIES * j..COPIES * j + COPIES])
  {
    if lines != [] {
      var init := lines[..|lines| - 1];
      var last := lines[|lines| - 1];
      assert Expand(init, shiftX, shiftY).Ok?;
      ExpandBlocks(init, shiftX, shiftY);
      var prev := Expand(init, shiftX, shiftY).value;
      var rows := Expand(lines, shiftX, shiftY).value;
      var wf0 := WellFormedLines(init);
      var wf := WellFormedLines(lines);
      if WellFormed(last) {
        ExpandLineCopies(last, shiftX, shiftY);
        var block := ExpandLine(last, shiftX, shiftY).value;
        assert rows == prev + block;
        assert wf == wf0 + [last];
        forall j | 0 <= j < |wf|
          ensures Numeric(wf[j]) && ExpandLine(wf[j], shiftX, shiftY) == Ok(rows[COPIES * j..COPIES * j + COPIES])
        {
          if j < |wf0| {
            assert wf[j] == wf0[j];
            assert rows[COPIES * j..COPIES * j + COPIES] == prev[COPIES * j..COPIES * j + COPIES];
          } else {
            assert wf[j] == last;
            assert rows[COPIES * j..COPIES * j + COPIES] == block;
          }
        }
      }
    }
  }

  /** Row 5j+k of the output is copy k of the j-th well-formed input line. */
  lemma OutputRow(lines: seq<Line>, j: int, k: int, shiftX: int, shiftY: int)
    requires Expand(lines, shiftX, shiftY).Ok?
    requires 0 <= j < |WellFormedLines(lines)| && 0 <= k < COPIES
    ensures var rows := Expand(lines, shiftX, shiftY).value;
      var line := WellFormedLines(lines)[j];
      COPIES * j + k < |rows| && Numeric(line) && rows[COPIES * j + k] == Copy(line, k, shiftX, shiftY)
  {
    ExpandBlocks(lines, shiftX, shiftY);
    var line := WellFormedLines(lines)[j];
    ExpandLineCopies(line, shiftX, shiftY);
    var rows := Expand(lines, shiftX, shiftY).value;
    assert rows[COPIES * j..COPIES * j + COPIES][k] == rows[COPIES * j + k];
  }

  /** The point ids used by lines that have a numeric third field. */
  function IdsOf(lines: seq<Line>): set<int> {
    set n | 0 <= n < |lines| && |lines[n]| > 2 && lines[n][2].Num? :: lines[n][2].value
  }

  /** When the input point ids are exactly 0..P-1, the output point ids are exactly 0..5P-1. */
  lemma PointIdsRange(lines: seq<Line>, P: int, shiftX: int, shiftY: int)
    requires Expand(lines, shiftX, shiftY).Ok?
    requires forall p :: p in IdsOf(WellFormedLines(lines)) <==> 0 <= p < P
    ensures forall q :: q in IdsOf(Expand(lines, shiftX, shiftY).value) <==> 0 <= q < COPIES * P
  {
    ExpandBlocks(lines, shiftX, shiftY);
    forall q | q in IdsOf(Expand(lines, shiftX, shiftY).value) ensures 0 <= q < COPIES * P {
      OutputIdBelow(lines, P, shiftX, shiftY, q);
    }
    forall q | 0 <= q < COPIES * P ensures q in IdsOf(Expand(lines, shiftX, shiftY).value) {
      OutputIdPresent(lines, P, shiftX, shiftY, q);
    }
  }

  /** Every output point id is the id of an input point times five plus its copy number. */
  lemma OutputIdBelow(lines: seq<Line>, P: int, shiftX: int, shiftY: int, q: int)
    requires Expand(lines, shiftX, shiftY).Ok?
    requires forall p :: p in IdsOf(WellFormedLines(lines)) ==> 0 <= p < P
    requires q in IdsOf(Expand(lines, shiftX, shiftY).value)
    ensures 0 <= q < COPIES * P
  {
    var rows: seq<Line> := Expand(lines, shiftX, shiftY).value;
    var wf: seq<Line> := WellFormedLines(lines);
    ExpandBlocks(lines, shiftX, shiftY);
    var n :| 0 <= n < |rows| && |rows[n]| > 2 && rows[n][2].Num? && rows[n][2].value == q;
    var j, k := n / COPIES, n % COPIES;
    assert n == COPIES * j + k;
    OutputRow(lines, j, k, shiftX, shiftY);
    var p := wf[j][2].value;
    assert p in IdsOf(wf);
    assert q == p * COPIES + k;
  }

  lemma SplitCopy(q: int, P: int)
    requires 0 <= q < COPIES * P
    ensures 0 <= q / COPIES < P && 0 <= q % COPIES < COPIES && q == COPIES * (q / COPIES) + q % COPIES
  {
  }

  /** Copy q % 5 of input point q / 5 carries id q. */
  lemma OutputIdPresent(lines: seq<Line>, P: int, shiftX: int, shiftY: int, q: int)
    requires Expand(lines, shiftX, shiftY).Ok?
    requires forall p :: 0 <= p < P ==> p in IdsOf(WellFormedLines(lines))
    requires 0 <= q < COPIES * P
    ensures q in IdsOf(Expand(lines, shiftX, shiftY).value)
  {
    var rows: seq<Line> := Expand(lines, shiftX, shiftY).value;
    var wf: seq<Line> := WellFormedLines(lines);
    var p, k := q / COPIES, q % COPIES;
    SplitCopy(q, P);
    assert p in IdsOf(wf);
    var j :| 0 <= j < |wf| && |wf[j]| > 2 && wf[j][2].Num? && wf[j][2].value == p;
    OutputRow(lines, j, k, shiftX, shiftY);
    assert rows[COPIES * j + k][2] == Num(q);
  }

  // ---------------------------------------------------------------------------
  // The module body: read the dataset, expand it, write the artifact

  /** The dataset read: `AV_DATASET` when set, the settings' `dataset_name` otherwise. */
  function InputPath(env: Env, datasetName: string): string {
    env.avDataset.GetOr(datasetName)
  }

  /** `os.path.join(results_dir, 'N_C_PDPg_buffer_Dataset.csv')` */
  function OutputPath(env: Env): string {
    Join(ResultsDir(env), OUTPUT_NAME)
  }

  /**
   * One execution of N_T_OB: a missing input raises before anything is read
   * or written; otherwise the artifact is rewritten with the expanded rows.
   */
  function BufferPrep(bufferX: Option<int>, bufferY: Option<int>, datasetName: string, env: Env, fs: FileSystem)
    : (r: Result<FileSystem, Error>)
    ensures var path := InputPath(env, datasetName);
      !Exists(fs, env.cwd, path) <==> r == Err(FileNotFound(path))
    ensures Exists(fs, env.cwd, InputPath(env, datasetName)) ==>
      (r.Ok? <==> Expand(fs[AbsPath(env.cwd, InputPath(env, datasetName))], bufferX.GetOr(DEFAULT_BUFFER_X), bufferY.GetOr(DEFAULT_BUFFER_Y)).Ok?)
    ensures Exists(fs, env.cwd, InputPath(env, datasetName)) && r.Err? ==>
      && r.error == Expand(fs[AbsPath(env.cwd, InputPath(env, datasetName))], bufferX.GetOr(DEFAULT_BUFFER_X), bufferY.GetOr(DEFAULT_BUFFER_Y)).error
      && r.error.NotANumber?
    ensures r.Ok? ==>
      var out := AbsPath(env.cwd, OutputPath(env));
      && out in r.value
      && Expand(fs[AbsPath(env.cwd, InputPath(env, datasetName))],
                bufferX.GetOr(DEFAULT_BUFFER_X), bufferY.GetOr(DEFAULT_BUFFER_Y)) == Ok(r.value[out])
      && forall q :: q != out ==> (q in r.value <==> q in fs) && (q in fs ==> r.value[q] == fs[q])
  {
    var path := InputPath(env, datasetName);
    if !Exists(fs, env.cwd, path) then Err(FileNotFound(path))
    else
      match Expand(fs[AbsPath(env.cwd, path)], bufferX.GetOr(DEFAULT_BUFFER_X), bufferY.GetOr(DEFAULT_BUFFER_Y))
      case Err(e) =>
        ExpandErrorIsValue(fs[AbsPath(env.cwd, path)], bufferX.GetOr(DEFAULT_BUFFER_X), bufferY.GetOr(DEFAULT_BUFFER_Y));
        Err(e)
      case Ok(rows) => Ok(fs[AbsPath(env.cwd, OutputPath(env)) := rows])
  }

  /** The only exception the expansion raises is float()'s ValueError. */
  lemma {:induction false} ExpandErrorIsValue(lines: seq<Line>, shiftX: int, shiftY: int)
    ensures Expand(lines, shiftX, shiftY).Err? ==> Expand(lines, shiftX, shiftY).error.NotANumber?
  {
    if lines != [] {
      ExpandErrorIsValue(lines[..|lines| - 1], shiftX, shiftY);
    }
  }

  /** The loop of lines 49-60: five appends per well-formed line. */
  method ExpandRows(input: seq<Line>, shiftX: int, shiftY: int) returns (r: Result<seq<Line>, Error>)
    ensures r == Expand(input, shiftX, shiftY)
  {
    var lines: seq<Line> := [];
    for i := 0 to |input|
      invariant Expand(input[..i], shiftX, shiftY) == Ok(lines)
    {
      var line := input[i];
      ghost var before := lines;
      assert input[..i + 1][..i] == input[..i];
      assert input[..i + 1][i] == line;
      if |line| < 5 {
        continue;
      }
      if line[2].Text? {
        ExpandErrPersists(input, i + 1, shiftX, shiftY);
        return Err(NotANumber(line[2].text));
      }
      if line[3].Text? {
        ExpandErrPersists(input, i + 1, shiftX, shiftY);
        return Err(NotANumber(line[3].text));
      }
      var p, x := line[2].value, line[3].value;
      lines := lines + [[line[0], line[1], Num(p * 5 + 0), Num(x - shiftX), line[4]]];
      lines := lines + [[line[0], line[1], Num(p * 5 + 1), Num(x + shiftX), line[4]]];
      lines := lines + [[line[0], line[1], Num(p * 5 + 2), line[3], line[4]]];
      if line[4].Text? {
        ExpandErrPersists(input, i + 1, shiftX, shiftY);
        return Err(NotANumber(line[4].text));
      }
      var y := line[4].value;
      lines := lines + [[line[0], line[1], Num(p * 5 + 3), line[3], Num(y - shiftY)]];
      lines := lines + [[line[0], line[1], Num(p * 5 + 4), line[3], Num(y + shiftY)]];
      assert lines == before + ExpandLine(line, shiftX, shiftY).value;
    }
    assert input[..|input|] == input;
    return Ok(lines);
  }

  /** The whole module body: defaults, the missing-input check, the loop, the rewrite of the artifact. */
  method RunBufferPrep(bufferX: Option<int>, bufferY: Option<int>, datasetName: string, env: Env, fs: FileSystem)
    returns (r: Result<FileSystem, Error>)
    ensures r == BufferPrep(bufferX, bufferY, datasetName, env, fs)
  {
    var shiftX := if bufferX.Some? then bufferX.value else DEFAULT_BUFFER_X;
    var shiftY := if bufferY.Some? then bufferY.value else DEFAULT_BUFFER_Y;
    var datasetPath := if env.avDataset.Some? then env.avDataset.value else datasetName;
    assert shiftX == bufferX.GetOr(DEFAULT_BUFFER_X) && shiftY == bufferY.GetOr(DEFAULT_BUFFER_Y);
    assert datasetPath == InputPath(env, datasetName);
    if AbsPath(env.cwd, datasetPath) !in fs {
      return Err(FileNotFound(datasetPath));
    }
    var expanded := ExpandRows(fs[AbsPath(env.cwd, datasetPath)], shiftX, shiftY);
    if expanded.Err? {
      return Err(expanded.error);
    }
    var outputPath := Join(ResultsDir(env), OUTPUT_NAME);
    var fs' := WriteRows(fs, AbsPath(env.cwd, outputPath), expanded.value);
    assert outputPath == OutputPath(env);
    return Ok(fs');
  }

  /**
   * Lines 69-74: `open(path, 'w')` truncates the file or creates it, then
   * `csv_writer.writerow(line)` appends every line, in order; no other file
   * changes.
   */
  method WriteRows(fs: FileSystem, path: string, lines: seq<Line>) returns (fs': FileSystem)
    ensures fs' == fs[path := lines]
  {
    fs' := fs[path := []];
    for i := 0 to |lines|
      invariant fs' == fs[path := lines[..i]]
    {
      assert lines[..i + 1] == lines[..i] + [lines[i]];
      fs' := fs'[path := fs'[path] + [lines[i]]];
    }
    assert lines[..|lines|] == lines;
  }
}
