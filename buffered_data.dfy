/**
 * What the buffer variant of N_Moving_Objects loads after N_T_OB has run:
 * the buffered artifact read back by `read_config_csv` has five times as
 * many rows and five times as many points, and the same configurations
 * and timestamps.
 */
module BufferedData {
  import opened Wrappers
  import opened Files
  import opened Loader
  import opened BufferTransform

  /** Every non-blank line has at least five fields, so the transform skips exactly the blank lines. */
  lemma {:induction false} SkipsOnlyBlank(lines: seq<Line>)
    requires forall i :: 0 <= i < |lines| ==> lines[i] == [] || |lines[i]| >= 5
    ensures WellFormedLines(lines) == NonBlank(lines)
  {
    if lines != [] {
      SkipsOnlyBlank(lines[..|lines| - 1]);
    }
  }

  /** A table without blank lines is read as it is. */
  lemma {:induction false} NoBlankLines(rows: seq<Line>)
    requires forall i :: 0 <= i < |rows| ==> rows[i] != []
    ensures NonBlank(rows) == rows
  {
    if rows != [] {
      NoBlankLines(rows[..|rows| - 1]);
      assert rows == rows[..|rows| - 1] + [rows[|rows| - 1]];
    }
  }

  /** MaxPlusOne depends only on the set of values in the column. */
  lemma MaxPlusOneOfSameSet(a: seq<int>, b: seq<int>)
    requires a != [] && b != []
    requires forall v :: v in a <==> v in b
    ensures MaxPlusOne(a) == MaxPlusOne(b)
  {
    assert MaxPlusOne(a) - 1 in b;
    assert MaxPlusOne(b) - 1 in a;
  }

  /** The rows of the buffered table, as `read_config_csv` turns them into records. */
  lemma BufferedRows(lines: seq<Line>, shiftX: int, shiftY: int)
    requires Rectangular(NonBlank(lines)) && AllNumeric(NonBlank(lines))
    requires Expand(lines, shiftX, shiftY).Ok?
    ensures var rows := Expand(lines, shiftX, shiftY).value;
      var wf := NonBlank(lines);
      && |rows| == COPIES * |wf|
      && NonBlank(rows) == rows && Rectangular(rows) && AllNumeric(rows)
      && forall j, k :: 0 <= j < |wf| && 0 <= k < COPIES ==> rows[COPIES * j + k] == Copy(wf[j], k, shiftX, shiftY)
  {
    var rows := Expand(lines, shiftX, shiftY).value;
    var wf := NonBlank(lines);
    NonBlankAreWide(lines);
    SkipsOnlyBlank(lines);
    ExpandBlocks(lines, shiftX, shiftY);
    forall j, k | 0 <= j < |wf| && 0 <= k < COPIES
      ensures rows[COPIES * j + k] == Copy(wf[j], k, shiftX, shiftY)
    {
      OutputRow(lines, j, k, shiftX, shiftY);
    }
    CopiesNumeric(rows, wf, shiftX, shiftY);
    NoBlankLines(rows);
  }

  /** In a rectangular, all-numeric five-column table every line is blank or has at least five fields. */
  lemma NonBlankAreWide(lines: seq<Line>)
    requires Rectangular(NonBlank(lines)) && AllNumeric(NonBlank(lines))
    ensures forall i :: 0 <= i < |lines| ==> lines[i] == [] || |lines[i]| >= 5
  {
    var wf := NonBlank(lines);
    forall i | 0 <= i < |lines| ensures lines[i] == [] || |lines[i]| >= 5 {
      if lines[i] != [] {
        assert lines[i] in lines;
        var n :| 0 <= n < |wf| && wf[n] == lines[i];
      }
    }
  }

  /** Rows laid out as the five copies of numeric rows are five-column numeric rows. */
  lemma CopiesNumeric(rows: seq<Line>, wf: seq<Line>, shiftX: int, shiftY: int)
    requires AllNumeric(wf) && forall j :: 0 <= j < |wf| ==> WellFormed(wf[j]) && Numeric(wf[j])
    requires |rows| == COPIES * |wf|
    requires forall j, k :: 0 <= j < |wf| && 0 <= k < COPIES ==> rows[COPIES * j + k] == Copy(wf[j], k, shiftX, shiftY)
    ensures forall n :: 0 <= n < |rows| ==> rows[n] != [] && |rows[n]| == COLUMNS && forall d :: 0 <= d < COLUMNS ==> rows[n][d].Num?
  {
    forall n | 0 <= n < |rows|
      ensures rows[n] != [] && |rows[n]| == COLUMNS && forall d :: 0 <= d < COLUMNS ==> rows[n][d].Num?
    {
      var j, k := n / COPIES, n % COPIES;
      assert n == COPIES * j + k;
      assert rows[n] == Copy(wf[j], k, shiftX, shiftY);
    }
  }

  /** Position of copy k of row j in the buffered table. */
  function Slot(j: int, k: int): int {
    COPIES * j + k
  }

  /** Every position of the buffered table is a slot. */
  lemma SlotOf(n: int, m: int) returns (j: int, k: int)
    requires 0 <= n < COPIES * m
    ensures 0 <= j < m && 0 <= k < COPIES && n == Slot(j, k)
  {
    j, k := n / COPIES, n % COPIES;
  }

  /** A column whose slot (j, k) repeats entry j of another has the same cardinality. */
  lemma CopiedColumn(a: seq<int>, b: seq<int>)
    requires a != [] && |b| == COPIES * |a|
    requires forall j, k :: 0 <= j < |a| && 0 <= k < COPIES ==> b[Slot(j, k)] == a[j]
    ensures MaxPlusOne(b) == MaxPlusOne(a)
  {
    forall v ensures v in b <==> v in a {
      if v in a {
        var j :| 0 <= j < |a| && a[j] == v;
        assert b[Slot(j, 0)] == v;
      }
      if v in b {
        var n :| 0 <= n < |b| && b[n] == v;
        var j, k := SlotOf(n, |a|);
        assert a[j] == v;
      }
    }
    MaxPlusOneOfSameSet(b, a);
  }

  /** A column whose slot (j, k) holds `5 * a[j] + k` has five times the cardinality of `a`. */
  lemma ScaledColumn(a: seq<int>, b: seq<int>)
    requires a != [] && |b| == COPIES * |a|
    requires forall j, k :: 0 <= j < |a| && 0 <= k < COPIES ==> b[Slot(j, k)] == COPIES * a[j] + k
    ensures MaxPlusOne(b) == COPIES * MaxPlusOne(a)
  {
    var m := MaxPlusOne(a);
    var top :| 0 <= top < |a| && a[top] == m - 1;
    assert b[Slot(top, 4)] == 5 * m - 1;
    var r := MaxPlusOne(b);
    var n :| 0 <= n < |b| && b[n] == r - 1;
    var j, k := SlotOf(n, |a|);
    assert a[j] in a;
    assert a[j] <= m - 1;
    assert b[n] == 5 * a[j] + k;
    assert r <= 5 * m;
    assert b[Slot(top, 4)] in b;
    assert r >= 5 * m;
  }

  /** The cardinalities of a table in which slot (j, k) holds copy k of row j of another. */
  lemma CardinalitiesOfCopies(recs: seq<Record>, recs2: seq<Record>)
    requires recs != [] && |recs2| == COPIES * |recs|
    requires forall j, k :: 0 <= j < |recs| && 0 <= k < COPIES ==>
      && recs2[Slot(j, k)].conId == recs[j].conId && recs2[Slot(j, k)].tstId == recs[j].tstId
      && recs2[Slot(j, k)].poiId == COPIES * recs[j].poiId + k
    ensures MaxPlusOne(ConIds(recs2)) == MaxPlusOne(ConIds(recs))
    ensures MaxPlusOne(TstIds(recs2)) == MaxPlusOne(TstIds(recs))
    ensures MaxPlusOne(PoiIds(recs2)) == COPIES * MaxPlusOne(PoiIds(recs))
  {
    var c, c2 := ConIds(recs), ConIds(recs2);
    var t, t2 := TstIds(recs), TstIds(recs2);
    var p, p2 := PoiIds(recs), PoiIds(recs2);
    forall j, k | 0 <= j < |recs| && 0 <= k < COPIES
      ensures c2[Slot(j, k)] == c[j] && t2[Slot(j, k)] == t[j] && p2[Slot(j, k)] == COPIES * p[j] + k
    {
      assert 0 <= Slot(j, k) < |recs2|;
    }
    CopiedColumn(c, c2);
    CopiedColumn(t, t2);
    ScaledColumn(p, p2);
  }

  /**
   * Reading back the artifact of a successful transform of a loadable
   * dataset succeeds, with five rows per input row, `poi' = 5 * poi`, and
   * the same `con` and `tst`.
   */
  lemma BufferedCardinalities(bufferX: Option<int>, bufferY: Option<int>, datasetName: string, env: Env, fs: FileSystem)
    requires BufferPrep(bufferX, bufferY, datasetName, env, fs).Ok?
    requires ReadConfigCsv(fs, env.cwd, InputPath(env, datasetName)).Ok?
    ensures var before := ReadConfigCsv(fs, env.cwd, InputPath(env, datasetName)).value;
      var after := ReadConfigCsv(BufferPrep(bufferX, bufferY, datasetName, env, fs).value, env.cwd, OutputPath(env));
      && after.Ok?
      && |after.value.records| == COPIES * |before.records|
      && after.value.poi == COPIES * before.poi
      && after.value.con == before.con
      && after.value.tst == before.tst
  {
    var sx, sy := bufferX.GetOr(DEFAULT_BUFFER_X), bufferY.GetOr(DEFAULT_BUFFER_Y);
    var inPath := InputPath(env, datasetName);
    var lines := fs[AbsPath(env.cwd, inPath)];
    var fs2 := BufferPrep(bufferX, bufferY, datasetName, env, fs).value;
    var rows := Expand(lines, sx, sy).value;
    ReadConfigOkIff(fs, env.cwd, inPath);
    LoadedOf(fs, env.cwd, inPath);
    BufferedRows(lines, sx, sy);
    assert fs2[AbsPath(env.cwd, OutputPath(env))] == rows;
    ReadConfigOkIff(fs2, env.cwd, OutputPath(env));
    LoadedOf(fs2, env.cwd, OutputPath(env));
    CopiesAsRecords(lines, sx, sy);
  }

  /** The records of the buffered table are the copies of the input records. */
  lemma CopiesAsRecords(lines: seq<Line>, sx: int, sy: int)
    requires Rectangular(NonBlank(lines)) && AllNumeric(NonBlank(lines)) && NonBlank(lines) != []
    requires Expand(lines, sx, sy).Ok?
    ensures AllNumeric(Expand(lines, sx, sy).value)
    ensures var recs := ToRecords(NonBlank(lines));
      var recs2 := ToRecords(Expand(lines, sx, sy).value);
      && |recs2| == COPIES * |recs|
      && MaxPlusOne(ConIds(recs2)) == MaxPlusOne(ConIds(recs))
      && MaxPlusOne(TstIds(recs2)) == MaxPlusOne(TstIds(recs))
      && MaxPlusOne(PoiIds(recs2)) == COPIES * MaxPlusOne(PoiIds(recs))
  {
    var rows := Expand(lines, sx, sy).value;
    var wf := NonBlank(lines);
    BufferedRows(lines, sx, sy);
    RecordsOfCopies(rows, wf, sx, sy);
  }

  /**
   * The records of the copies keep configuration and timestamp, and copy k of
   * point p gets id 5p + k; so `con` and `tst` are kept and `poi` is multiplied by five.
   */
  lemma RecordsOfCopies(rows: seq<Line>, wf: seq<Line>, sx: int, sy: int)
    requires AllNumeric(wf) && AllNumeric(rows) && forall j :: 0 <= j < |wf| ==> WellFormed(wf[j]) && Numeric(wf[j])
    requires |rows| == COPIES * |wf|
    requires forall j, k :: 0 <= j < |wf| && 0 <= k < COPIES ==> rows[COPIES * j + k] == Copy(wf[j], k, sx, sy)
    ensures var recs, recs2 := ToRecords(wf), ToRecords(rows);
      forall j, k :: 0 <= j < |recs| && 0 <= k < COPIES ==>
        && recs2[Slot(j, k)].conId == recs[j].conId && recs2[Slot(j, k)].tstId == recs[j].tstId
        && recs2[Slot(j, k)].poiId == COPIES * recs[j].poiId + k
    ensures wf != [] ==> var recs, recs2 := ToRecords(wf), ToRecords(rows);
      && MaxPlusOne(ConIds(recs2)) == MaxPlusOne(ConIds(recs))
      && MaxPlusOne(TstIds(recs2)) == MaxPlusOne(TstIds(recs))
      && MaxPlusOne(PoiIds(recs2)) == COPIES * MaxPlusOne(PoiIds(recs))
  {
    var recs, recs2 := ToRecords(wf), ToRecords(rows);
    forall j, k | 0 <= j < |recs| && 0 <= k < COPIES
      ensures && recs2[Slot(j, k)].conId == recs[j].conId && recs2[Slot(j, k)].tstId == recs[j].tstId
              && recs2[Slot(j, k)].poiId == COPIES * recs[j].poiId + k
    {
      assert rows[COPIES * j + k] == Copy(wf[j], k, sx, sy);
    }
    if wf != [] {
      CardinalitiesOfCopies(recs, recs2);
    }
  }
}
