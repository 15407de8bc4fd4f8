/**
 * `read_config_csv` of N_Moving_Objects.py: load a headerless table, insist on
 * exactly five columns (conID, tstID, poiID, x, y), convert every column to
 * numbers and derive the cardinalities `con`, `tst`, `poi` as column maximum + 1.
 */
module Loader {
  import opened Wrappers
  import opened Files
  import opened Sequences

  /** The number of columns a configuration table must have. */
  const COLUMNS := 5

  /** One row of `L_dataset`: configuration, timestamp, point, x and y. */
  datatype Record = Record(conId: int, tstId: int, poiId: int, x: int, y: int)

  /** What `read_config_csv` returns (the data frame and the float32 array hold the same rows). */
  datatype Loaded = Loaded(records: seq<Record>, con: int, tst: int, poi: int)

  // ---------------------------------------------------------------------------
  // Reading the table

  /** The lines the CSV reader keeps: blank lines are skipped. */
  function NonBlank(lines: seq<Line>): (rows: seq<Line>)
    ensures |rows| <= |lines|
    ensures forall i :: 0 <= i < |rows| ==> rows[i] != []
    ensures forall l :: l in lines && l != [] ==> l in rows
    ensures forall l :: l in rows ==> l in lines
  {
    if lines == [] then []
    else
      var prev := NonBlank(lines[..|lines| - 1]);
      assert forall l :: l in lines[..|lines| - 1] ==> l in lines;
      assert forall l :: l in lines ==> l in lines[..|lines| - 1] || l == lines[|lines| - 1];
      if lines[|lines| - 1] == [] then prev else prev + [lines[|lines| - 1]]
  }

  /** Every non-blank line is kept, as often as it occurs, in file order. */
  lemma {:induction false} NonBlankSelect(lines: seq<Line>)
    ensures forall l :: multiset(NonBlank(lines))[l] == if l != [] then multiset(lines)[l] else 0
    ensures Subsequence(NonBlank(lines), lines)
  {
    if lines != [] {
      var init, last := lines[..|lines| - 1], lines[|lines| - 1];
      var prev := NonBlank(init);
      NonBlankSelect(init);
      assert lines == init + [last];
      assert multiset(lines) == multiset(init) + multiset{last};
      SubsequenceSnoc(prev, init, last);
      if last != [] {
        assert multiset(prev + [last]) == multiset(prev) + multiset{last};
      }
    }
  }

  /** The index of the first row whose width differs from the first row's, if any. */
  function FirstRagged(rows: seq<Line>, from: nat): (r: Option<nat>)
    requires rows != [] && from <= |rows|
    ensures r.None? <==> forall i :: from <= i < |rows| ==> |rows[i]| == |rows[0]|
    ensures r.Some? ==>
      && from <= r.value < |rows| && |rows[r.value]| != |rows[0]|
      && forall i :: from <= i < r.value ==> |rows[i]| == |rows[0]|
    decreases |rows| - from
  {
    if from == |rows| then None
    else if |rows[from]| != |rows[0]| then Some(from)
    else FirstRagged(rows, from + 1)
  }

  /**
   * `pd.read_csv(path, header=None)`: the file must exist and hold at least one
   * non-blank line, and every line has as many fields as the first.
   */
  function ReadTable(fs: FileSystem, cwd: string, path: string): (r: Result<seq<Line>, Error>)
    ensures !Exists(fs, cwd, path) <==> r == Err(FileNotFound(path))
    ensures r.Ok? <==> Exists(fs, cwd, path) && Rectangular(NonBlank(fs[AbsPath(cwd, path)]))
    ensures r.Ok? ==> r.value == NonBlank(fs[AbsPath(cwd, path)])
  {
    if !Exists(fs, cwd, path) then Err(FileNotFound(path))
    else
      var rows := NonBlank(fs[AbsPath(cwd, path)]);
      if rows == [] then Err(EmptyData(path))
      else match FirstRagged(rows, 0)
        case Some(i) => Err(RaggedLine(path, i))
        case None => Ok(rows)
  }

  /** A non-empty table whose rows all have the first row's width. */
  predicate Rectangular(rows: seq<Line>) {
    rows != [] && forall i :: 0 <= i < |rows| ==> |rows[i]| == |rows[0]|
  }

  // ---------------------------------------------------------------------------
  // Conversion to numbers

  /** The first non-numeric cell of column c, scanning the rows top to bottom. */
  function FirstText(rows: seq<Line>, c: nat): (r: Option<string>)
    requires forall i :: 0 <= i < |rows| ==> c < |rows[i]|
    ensures r.None? <==> forall i :: 0 <= i < |rows| ==> rows[i][c].Num?
    ensures r.Some? ==> exists i :: 0 <= i < |rows| && rows[i][c] == Text(r.value)
  {
    if rows == [] then None
    else if rows[0][c].Text? then Some(rows[0][c].text)
    else
      var rest := FirstText(rows[1..], c);
      assert forall i :: 1 <= i < |rows| ==> rows[i] == rows[1..][i - 1];
      rest
  }

  /**
   * `pd.to_numeric(..., errors='raise')` applied to the columns c, c+1, ..., 4
   * in turn: the first column holding a non-numeric cell raises.
   */
  function FirstTextFrom(rows: seq<Line>, c: nat): (r: Option<string>)
    requires c <= COLUMNS
    requires forall i :: 0 <= i < |rows| ==> |rows[i]| == COLUMNS
    ensures r.None? <==> forall i, d :: 0 <= i < |rows| && c <= d < COLUMNS ==> rows[i][d].Num?
    ensures r.Some? ==> exists i, d :: 0 <= i < |rows| && c <= d < COLUMNS && rows[i][d] == Text(r.value)
    decreases COLUMNS - c
  {
    if c == COLUMNS then None
    else match FirstText(rows, c)
      case Some(t) => Some(t)
      case None => FirstTextFrom(rows, c + 1)
  }

  /** Every cell of a five-column table is a number. */
  predicate AllNumeric(rows: seq<Line>) {
    forall i :: 0 <= i < |rows| ==> |rows[i]| == COLUMNS && forall d :: 0 <= d < COLUMNS ==> rows[i][d].Num?
  }

  /** `df_num.values.tolist()`: the rows as records, in table order. */
  function ToRecords(rows: seq<Line>): (recs: seq<Record>)
    requires AllNumeric(rows)
    ensures |recs| == |rows|
    ensures forall i :: 0 <= i < |rows| ==>
      recs[i] == Record(rows[i][0].value, rows[i][1].value, rows[i][2].value, rows[i][3].value, rows[i][4].value)
  {
    if rows == [] then []
    else [Record(rows[0][0].value, rows[0][1].value, rows[0][2].value, rows[0][3].value, rows[0][4].value)]
         + ToRecords(rows[1..])
  }

  // ---------------------------------------------------------------------------
  // Cardinalities

  /** `int(column.max()) + 1 if len(df_num) else 0` */
  function MaxPlusOne(column: seq<int>): (r: int)
    ensures column == [] ==> r == 0
    ensures column != [] ==> (forall v :: v in column ==> v < r) && r - 1 in column
  {
    if column == [] then 0
    else if |column| == 1 then column[0] + 1
    else
      var rest := MaxPlusOne(column[1..]);
      assert column == [column[0]] + column[1..];
      if column[0] + 1 >= rest then column[0] + 1 else rest
  }

  function ConIds(recs: seq<Record>): (ids: seq<int>)
    ensures |ids| == |recs| && forall i :: 0 <= i < |recs| ==> ids[i] == recs[i].conId
  {
    if recs == [] then [] else [recs[0].conId] + ConIds(recs[1..])
  }

  function TstIds(recs: seq<Record>): (ids: seq<int>)
    ensures |ids| == |recs| && forall i :: 0 <= i < |recs| ==> ids[i] == recs[i].tstId
  {
    if recs == [] then [] else [recs[0].tstId] + TstIds(recs[1..])
  }

  function PoiIds(recs: seq<Record>): (ids: seq<int>)
    ensures |ids| == |recs| && forall i :: 0 <= i < |recs| ==> ids[i] == recs[i].poiId
  {
    if recs == [] then [] else [recs[0].poiId] + PoiIds(recs[1..])
  }

  // ---------------------------------------------------------------------------
  // The loader

  /** `read_config_csv(path)` */
  function ReadConfigCsv(fs: FileSystem, cwd: string, path: string): (r: Result<Loaded, Error>)
    ensures r.Ok? ==> ReadTable(fs, cwd, path).Ok? && AllNumeric(ReadTable(fs, cwd, path).value)
  {
    match ReadTable(fs, cwd, path)
    case Err(e) => Err(e)
    case Ok(rows) =>
      if |rows[0]| != COLUMNS then Err(ColumnCount(path, |rows[0]|))
      else match FirstTextFrom(rows, 0)
        case Some(t) => Err(NotANumber(t))
        case None =>
          var recs := ToRecords(rows);
          Ok(Loaded(recs, MaxPlusOne(ConIds(recs)), MaxPlusOne(TstIds(recs)), MaxPlusOne(PoiIds(recs))))
  }

  /** The load succeeds exactly for an existing, rectangular, five-column, all-numeric table. */
  lemma ReadConfigOkIff(fs: FileSystem, cwd: string, path: string)
    ensures ReadConfigCsv(fs, cwd, path).Ok? <==>
      Exists(fs, cwd, path) && Rectangular(NonBlank(fs[AbsPath(cwd, path)])) && AllNumeric(NonBlank(fs[AbsPath(cwd, path)]))
  {
    if Exists(fs, cwd, path) && Rectangular(NonBlank(fs[AbsPath(cwd, path)])) && AllNumeric(NonBlank(fs[AbsPath(cwd, path)])) {
      var rows := NonBlank(fs[AbsPath(cwd, path)]);
      assert |rows[0]| == COLUMNS;
      assert FirstTextFrom(rows, 0).None?;
    }
  }

  /** A table of any width but five is refused with an error naming the path and the width. */
  lemma ColumnCountError(fs: FileSystem, cwd: string, path: string)
    requires ReadTable(fs, cwd, path).Ok?
    requires |ReadTable(fs, cwd, path).value[0]| != COLUMNS
    ensures ReadConfigCsv(fs, cwd, path) == Err(ColumnCount(path, |NonBlank(fs[AbsPath(cwd, path)])[0]|))
  {
  }

  /** In a five-column table, a non-numeric cell makes the load fail with a conversion error. */
  lemma NonNumericFails(fs: FileSystem, cwd: string, path: string, i: int, d: int)
    requires ReadTable(fs, cwd, path).Ok?
    requires |ReadTable(fs, cwd, path).value[0]| == COLUMNS
    requires 0 <= i < |ReadTable(fs, cwd, path).value| && 0 <= d < COLUMNS
    requires ReadTable(fs, cwd, path).value[i][d].Text?
    ensures ReadConfigCsv(fs, cwd, path).Err? && ReadConfigCsv(fs, cwd, path).error.NotANumber?
  {
    var rows: seq<Line> := ReadTable(fs, cwd, path).value;
    assert !(forall i': int, d': int :: 0 <= i' < |rows| && 0 <= d' < COLUMNS ==> rows[i'][d'].Num?);
  }

  /** Each cardinality bounds its column and is attained: it is the column maximum + 1. */
  lemma {:induction false} CardinalitiesOf(recs: seq<Record>)
    requires recs != []
    ensures var con, tst, poi := MaxPlusOne(ConIds(recs)), MaxPlusOne(TstIds(recs)), MaxPlusOne(PoiIds(recs));
      && (forall i :: 0 <= i < |recs| ==> recs[i].conId < con && recs[i].tstId < tst && recs[i].poiId < poi)
      && (exists i :: 0 <= i < |recs| && recs[i].conId == con - 1)
      && (exists i :: 0 <= i < |recs| && recs[i].tstId == tst - 1)
      && (exists i :: 0 <= i < |recs| && recs[i].poiId == poi - 1)
  {
    var cs, ts, ps := ConIds(recs), TstIds(recs), PoiIds(recs);
    MaxPlusOneAt(cs);
    MaxPlusOneAt(ts);
    MaxPlusOneAt(ps);
    var a :| 0 <= a < |cs| && cs[a] == MaxPlusOne(cs) - 1;
    var b :| 0 <= b < |ts| && ts[b] == MaxPlusOne(ts) - 1;
    var c :| 0 <= c < |ps| && ps[c] == MaxPlusOne(ps) - 1;
    assert recs[a].conId == cs[a] && recs[b].tstId == ts[b] && recs[c].poiId == ps[c];
    forall i | 0 <= i < |recs|
      ensures recs[i].conId < MaxPlusOne(cs) && recs[i].tstId < MaxPlusOne(ts) && recs[i].poiId < MaxPlusOne(ps)
    {
      assert cs[i] < MaxPlusOne(cs) && ts[i] < MaxPlusOne(ts) && ps[i] < MaxPlusOne(ps);
    }
  }

  /** `MaxPlusOne` by position: it exceeds every entry and is one more than some entry. */
  lemma MaxPlusOneAt(column: seq<int>)
    requires column != []
    ensures forall i :: 0 <= i < |column| ==> column[i] < MaxPlusOne(column)
    ensures exists i :: 0 <= i < |column| && column[i] == MaxPlusOne(column) - 1
  {
    forall i | 0 <= i < |column| ensures column[i] < MaxPlusOne(column) {
      assert column[i] in column;
    }
    assert MaxPlusOne(column) - 1 in column;
    var k :| 0 <= k < |column| && column[k] == MaxPlusOne(column) - 1;
  }

  /** A successful load is the records of the file's non-blank rows, with their cardinalities. */
  lemma LoadedOf(fs: FileSystem, cwd: string, path: string)
    requires ReadConfigCsv(fs, cwd, path).Ok?
    ensures var rows := NonBlank(fs[AbsPath(cwd, path)]);
      && rows != [] && AllNumeric(rows)
      && var recs := ToRecords(rows);
      ReadConfigCsv(fs, cwd, path).value
        == Loaded(recs, MaxPlusOne(ConIds(recs)), MaxPlusOne(TstIds(recs)), MaxPlusOne(PoiIds(recs)))
  {
    var rows := NonBlank(fs[AbsPath(cwd, path)]);
    assert ReadTable(fs, cwd, path) == Ok(rows);
    assert FirstTextFrom(rows, 0).None?;
  }

  /**
   * What a load builds from a table: every row, in order, with all five
   * values, and each cardinality its column's maximum + 1.
   */
  lemma LoadedContents(rows: seq<Line>)
    requires rows != [] && AllNumeric(rows)
    ensures var recs := ToRecords(rows);
      var l := Loaded(recs, MaxPlusOne(ConIds(recs)), MaxPlusOne(TstIds(recs)), MaxPlusOne(PoiIds(recs)));
      && |l.records| == |rows| > 0
      && (forall i :: 0 <= i < |rows| ==>
            l.records[i] == Record(rows[i][0].value, rows[i][1].value, rows[i][2].value, rows[i][3].value, rows[i][4].value))
      && (forall i :: 0 <= i < |rows| ==> l.records[i].conId < l.con && l.records[i].tstId < l.tst && l.records[i].poiId < l.poi)
      && (exists i :: 0 <= i < |rows| && l.records[i].conId == l.con - 1)
      && (exists i :: 0 <= i < |rows| && l.records[i].tstId == l.tst - 1)
      && (exists i :: 0 <= i < |rows| && l.records[i].poiId == l.poi - 1)
  {
    var recs := ToRecords(rows);
    CardinalitiesOf(recs);
    var l := Loaded(recs, MaxPlusOne(ConIds(recs)), MaxPlusOne(TstIds(recs)), MaxPlusOne(PoiIds(recs)));
    forall i | 0 <= i < |rows|
      ensures l.records[i] == Record(rows[i][0].value, rows[i][1].value, rows[i][2].value, rows[i][3].value, rows[i][4].value)
      ensures l.records[i].conId < l.con && l.records[i].tstId < l.tst && l.records[i].poiId < l.poi
    {
      assert l.records[i] == recs[i];
    }
  }

  /** The cardinality of an empty column is 0; a column of ids 0..n-1 has cardinality n. */
  lemma MaxPlusOneOfRange(column: seq<int>, n: int)
    requires forall v :: v in column <==> 0 <= v < n
    ensures MaxPlusOne(column) == if n <= 0 then 0 else n
  {
    if n > 0 {
      assert n - 1 in column;
    }
  }
}
