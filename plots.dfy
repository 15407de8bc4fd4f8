/**
 * What the three visualisation modules share: the rows of one configuration
 * laid out timestamp-major (the row of point p at timestamp i sits at
 * position `p + i * poi`), the per-configuration split of the data frame,
 * the colour lists, and the arrows, dots and text labels their loops draw.
 */
module Plots {
  import opened Wrappers
  import opened Files
  import opened Loader
  import opened Sequences

  /** The three columns the plots read: configuration, x and y. */
  datatype Sample = Sample(config: int, x: int, y: int)

  /** The plotted columns of a loaded table. */
  function SamplesOf(recs: seq<Record>): (s: seq<Sample>)
    ensures |s| == |recs|
    ensures forall k :: 0 <= k < |recs| ==> s[k].config == recs[k].conId && s[k].x == recs[k].x && s[k].y == recs[k].y
  {
    seq(|recs|, k requires 0 <= k < |recs| => Sample(recs[k].conId, recs[k].x, recs[k].y))
  }

  // ---------------------------------------------------------------------------
  // Reading the dataset

  /** Column 0 holds the configuration, columns 3 and 4 the coordinates. */
  const X_COLUMN := 3
  const Y_COLUMN := 4

  /** The cells the plots read are numbers, in a table wide enough to have them. */
  predicate Plottable(rows: seq<Line>) {
    forall k :: 0 <= k < |rows| ==> |rows[k]| > Y_COLUMN && rows[k][0].Num? && rows[k][X_COLUMN].Num? && rows[k][Y_COLUMN].Num?
  }

  /**
   * `pd.read_csv(av.dataset_name, header=None)` and the columns `df[0]`,
   * `config_data[3]` and `config_data[4]`: the reading errors of the loader,
   * then the first missing column, then a coordinate column holding text
   * (`x.max() - x.min()`), then a configuration column holding text.
   */
  function PlotSamples(fs: FileSystem, cwd: string, path: string): (r: Result<seq<Sample>, Error>)
    ensures ReadTable(fs, cwd, path).Err? ==> r == Err(ReadTable(fs, cwd, path).error)
    ensures r.Err? && ReadTable(fs, cwd, path).Ok? ==> r.error.MissingColumn? || r.error.TextColumn?
    ensures r.Ok? <==> ReadTable(fs, cwd, path).Ok? && Plottable(ReadTable(fs, cwd, path).value)
    ensures r.Ok? ==> var rows := ReadTable(fs, cwd, path).value;
      && |r.value| == |rows|
      && forall k :: 0 <= k < |rows| ==> r.value[k] == Sample(rows[k][0].value, rows[k][X_COLUMN].value, rows[k][Y_COLUMN].value)
  {
    match ReadTable(fs, cwd, path)
    case Err(e) => Err(e)
    case Ok(rows) =>
      if |rows[0]| <= X_COLUMN then Err(MissingColumn(X_COLUMN))
      else if |rows[0]| <= Y_COLUMN then Err(MissingColumn(Y_COLUMN))
      else if FirstText(rows, X_COLUMN).Some? then Err(TextColumn(X_COLUMN))
      else if FirstText(rows, Y_COLUMN).Some? then Err(TextColumn(Y_COLUMN))
      else if FirstText(rows, 0).Some? then Err(TextColumn(0))
      else Ok(seq(|rows|, k requires 0 <= k < |rows| => Sample(rows[k][0].value, rows[k][X_COLUMN].value, rows[k][Y_COLUMN].value)))
  }

  /** `len(range(n))`. */
  function Max0(n: int): nat {
    if n > 0 then n else 0
  }

  // ---------------------------------------------------------------------------
  // Splitting the data frame by configuration

  /** `df[0].unique()`: every configuration once, in order of first appearance. */
  function Configurations(rows: seq<Sample>): (cs: seq<int>)
    ensures forall c :: c in cs <==> exists k :: 0 <= k < |rows| && rows[k].config == c
    ensures forall i, j :: 0 <= i < j < |cs| ==> cs[i] != cs[j]
  {
    if rows == [] then []
    else
      var init := rows[..|rows| - 1];
      var prev := Configurations(init);
      var c := rows[|rows| - 1].config;
      assert forall k :: 0 <= k < |init| ==> init[k] == rows[k];
      if c in prev then prev else prev + [c]
  }

  /** `df[df[0] == config]`: the rows of one configuration, in file order. */
  function RowsOf(rows: seq<Sample>, config: int): (r: seq<Sample>)
    ensures |r| <= |rows|
    ensures forall s :: s in r <==> s in rows && s.config == config
  {
    if rows == [] then []
    else
      var init := rows[..|rows| - 1];
      var prev := RowsOf(init, config);
      var last := rows[|rows| - 1];
      assert forall s :: s in rows <==> s in init || s == last;
      if last.config == config then prev + [last] else prev
  }

  /** Some row before row k holds configuration c. */
  predicate SeenBefore(rows: seq<Sample>, c: int, k: int) {
    exists k' :: 0 <= k' < k && k' < |rows| && rows[k'].config == c
  }

  /** Every row holding cs[j] comes after some row holding cs[i], for i < j. */
  predicate FirstAppearanceOrder(rows: seq<Sample>, cs: seq<int>) {
    forall i, j, k :: 0 <= i < j < |cs| && 0 <= k < |rows| && rows[k].config == cs[j] ==> SeenBefore(rows, cs[i], k)
  }

  /**
   * The configurations are listed in order of first appearance: every row of
   * a later-listed configuration comes after some row of an earlier-listed one.
   */
  lemma {:induction false} ConfigurationsOrder(rows: seq<Sample>)
    ensures FirstAppearanceOrder(rows, Configurations(rows))
  {
    if rows == [] {
      assert Configurations(rows) == [];
    } else {
      var init := rows[..|rows| - 1];
      var prev := Configurations(init);
      var c := rows[|rows| - 1].config;
      var cs := Configurations(rows);
      ConfigurationsOrder(init);
      assert forall k :: 0 <= k < |init| ==> init[k] == rows[k];
      assert FirstAppearanceOrder(init, prev);
      assert forall i :: 0 <= i < |prev| ==> cs[i] == prev[i];
      forall i, j, k | 0 <= i < j < |cs| && 0 <= k < |rows| && rows[k].config == cs[j]
        ensures SeenBefore(rows, cs[i], k)
      {
        assert i < |prev|;
        if j < |prev| {
          // cs[j] occurs in init: take its first row there, or k itself
          var k0 := k;
          if k == |init| {
            assert prev[j] in prev;
            k0 :| 0 <= k0 < |init| && init[k0].config == prev[j];
          }
          assert init[k0].config == prev[j];
          assert SeenBefore(init, prev[i], k0);
          var k' :| 0 <= k' < k0 && k' < |init| && init[k'].config == prev[i];
          assert rows[k'].config == cs[i];
        } else {
          // cs[j] is the new configuration of the last row: cs[i] occurs in init
          assert cs[j] == c && c !in prev;
          assert prev[i] in prev;
          var k' :| 0 <= k' < |init| && init[k'].config == prev[i];
          assert rows[k'].config == cs[i];
        }
      }
      assert FirstAppearanceOrder(rows, cs);
    }
  }

  /** Every row of the configuration is kept, as often as it occurs, in file order. */
  lemma {:induction false} RowsOfSelect(rows: seq<Sample>, config: int)
    ensures forall s :: multiset(RowsOf(rows, config))[s] == if s.config == config then multiset(rows)[s] else 0
    ensures Subsequence(RowsOf(rows, config), rows)
  {
    if rows != [] {
      var init, last := rows[..|rows| - 1], rows[|rows| - 1];
      var prev := RowsOf(init, config);
      RowsOfSelect(init, config);
      assert rows == init + [last];
      assert multiset(rows) == multiset(init) + multiset{last};
      SubsequenceSnoc(prev, init, last);
      if last.config == config {
        assert multiset(prev + [last]) == multiset(prev) + multiset{last};
      }
    }
  }

  /**
   * The exception of the first configuration among cs whose rows make
   * `fail` report one: the loops over the configurations stop there.
   */
  function FailureFrom(rows: seq<Sample>, cs: seq<int>, fail: int -> Option<Error>): (e: Option<Error>)
    ensures e.None? <==> forall n :: 0 <= n < |cs| ==> fail(|RowsOf(rows, cs[n])|).None?
    ensures e.Some? ==> exists n :: 0 <= n < |cs| && FirstFailing(rows, cs, fail, n) && e == fail(|RowsOf(rows, cs[n])|)
    decreases |cs|
  {
    if cs == [] then None
    else
      var e := fail(|RowsOf(rows, cs[0])|);
      if e.Some? then e
      else
        var rest := FailureFrom(rows, cs[1..], fail);
        assert forall n :: 1 <= n < |cs| ==> cs[n] == cs[1..][n - 1];
        assert forall n :: 0 <= n < |cs[1..]| && FirstFailing(rows, cs[1..], fail, n) ==> FirstFailing(rows, cs, fail, n + 1);
        rest
  }

  /** Configuration cs[n] fails and every one before it does not. */
  predicate FirstFailing(rows: seq<Sample>, cs: seq<int>, fail: int -> Option<Error>, n: int)
    requires 0 <= n < |cs|
  {
    fail(|RowsOf(rows, cs[n])|).Some? && forall m :: 0 <= m < n ==> fail(|RowsOf(rows, cs[m])|).None?
  }

  /** Every configuration the split enumerates has at least one row. */
  lemma ConfigurationNotEmpty(rows: seq<Sample>, config: int)
    requires config in Configurations(rows)
    ensures RowsOf(rows, config) != []
  {
    var k :| 0 <= k < |rows| && rows[k].config == config;
    assert rows[k] in RowsOf(rows, config);
  }

  // ---------------------------------------------------------------------------
  // The timestamp-major layout

  /** Position of point p at timestamp i. */
  function Slot(p: int, i: int, poi: int): int {
    p + i * poi
  }

  /** With p < poi and i < tst every slot lies inside a table of `tst * poi` rows. */
  lemma SlotInBounds(p: int, i: int, poi: int, tst: int)
    requires 0 <= p < poi && 0 <= i < tst
    ensures 0 <= Slot(p, i, poi) < tst * poi
  {
    Distributes(i + 1, tst - (i + 1), poi);
    Distributes(i, 1, poi);
    MulNonNegative(tst - (i + 1), poi);
    MulNonNegative(i, poi);
  }

  /** The last slot is the last row of such a table. */
  lemma LastSlot(poi: int, tst: int)
    requires poi >= 1 && tst >= 1
    ensures Slot(poi - 1, tst - 1, poi) == tst * poi - 1
  {
  }

  /**
   * Among the timestamps j, ..., last of point p, the first whose row is
   * missing from a table of n rows, or last + 1 when all are there.
   */
  function FirstMissing(n: int, poi: int, p: int, j: int, last: int): (k: int)
    requires j <= last + 1
    ensures j <= k <= last + 1
    ensures k <= last ==> Slot(p, k, poi) >= n
    ensures forall i :: j <= i < k ==> Slot(p, i, poi) < n
    decreases last - j
  {
    if j > last || Slot(p, j, poi) >= n then j else FirstMissing(n, poi, p, j + 1, last)
  }

  /**
   * Among the points p, ..., poi - 1, the first whose row at timestamp last
   * is missing from a table of n rows, or poi when all are there.
   */
  function FirstIncomplete(n: int, poi: int, p: int, last: int): (q: int)
    requires p <= poi
    ensures p <= q <= poi
    ensures q < poi ==> Slot(q, last, poi) >= n
    ensures forall r :: p <= r < q ==> Slot(r, last, poi) < n
    decreases poi - p
  {
    if p >= poi || Slot(p, last, poi) >= n then p else FirstIncomplete(n, poi, p + 1, last)
  }

  /**
   * The row at which loops that visit point after point, each through its
   * timestamps 0 .. tst - 1, first read past a table of n < tst * poi rows:
   * the first missing timestamp of the first point whose last row is missing.
   */
  function SlotFailure(n: int, poi: int, tst: int): (k: int)
    requires poi >= 1 && tst >= 1 && n < tst * poi
    ensures k >= n
  {
    var p := FirstIncomplete(n, poi, 0, tst - 1);
    LastSlot(poi, tst);
    Slot(p, FirstMissing(n, poi, p, 0, tst - 1), poi)
  }

  /**
   * The failing read is reached: every point before it has all its rows,
   * its own point has every row before it, and it lies inside the `tst * poi`
   * positions the loops enumerate.
   */
  lemma SlotFailureReached(n: int, poi: int, tst: int)
    requires poi >= 1 && tst >= 1 && 0 <= n < tst * poi
    ensures var p := FirstIncomplete(n, poi, 0, tst - 1);
      var j := FirstMissing(n, poi, p, 0, tst - 1);
      && 0 <= p < poi && 0 <= j < tst
      && SlotFailure(n, poi, tst) == Slot(p, j, poi) < tst * poi
      && (forall q, i :: 0 <= q < p && 0 <= i < tst ==> Slot(q, i, poi) < n)
      && (forall i :: 0 <= i < j ==> Slot(p, i, poi) < n)
  {
    var p := FirstIncomplete(n, poi, 0, tst - 1);
    LastSlot(poi, tst);
    var j := FirstMissing(n, poi, p, 0, tst - 1);
    SlotInBounds(p, j, poi, tst);
    forall q, i | 0 <= q < p && 0 <= i < tst ensures Slot(q, i, poi) < n {
      SlotOrder(q, i, tst - 1, poi);
    }
  }

  /** When point p is the first incomplete one from the start, the loops fail inside point p. */
  lemma SlotFailureAt(n: int, poi: int, tst: int, p: int)
    requires poi >= 1 && tst >= 1 && 0 <= p < poi && Slot(p, tst - 1, poi) >= n
    requires FirstIncomplete(n, poi, 0, tst - 1) == FirstIncomplete(n, poi, p, tst - 1)
    ensures n < tst * poi
    ensures SlotFailure(n, poi, tst) == Slot(p, FirstMissing(n, poi, p, 0, tst - 1), poi)
  {
    SlotInBounds(p, tst - 1, poi, tst);
    assert FirstIncomplete(n, poi, p, tst - 1) == p;
  }

  /** When cs[n] is the first configuration that fails, its exception is the one raised. */
  lemma FailureFromAt(rows: seq<Sample>, cs: seq<int>, fail: int -> Option<Error>, n: int)
    requires 0 <= n < |cs| && fail(|RowsOf(rows, cs[n])|).Some?
    requires forall m :: 0 <= m < n ==> fail(|RowsOf(rows, cs[m])|).None?
    ensures FailureFrom(rows, cs, fail) == fail(|RowsOf(rows, cs[n])|)
  {
    var k :| 0 <= k < |cs| && FirstFailing(rows, cs, fail, k) && FailureFrom(rows, cs, fail) == fail(|RowsOf(rows, cs[k])|);
    assert FirstFailing(rows, cs, fail, k);
    assert FirstFailing(rows, cs, fail, n);
    assert k == n;
  }

  /** Different (point, timestamp) pairs occupy different rows. */
  lemma SlotInjective(p: int, i: int, q: int, j: int, poi: int)
    requires 0 <= p < poi && 0 <= q < poi && 0 <= i && 0 <= j
    requires Slot(p, i, poi) == Slot(q, j, poi)
    ensures p == q && i == j
  {
    if i < j {
      MulAtLeast(j - i, poi);
      Distributes(i, j - i, poi);
    } else if j < i {
      MulAtLeast(i - j, poi);
      Distributes(j, i - j, poi);
    }
  }

  lemma Distributes(a: int, b: int, c: int)
    ensures (a + b) * c == a * c + b * c
  {
  }

  lemma MulNonNegative(a: int, b: int)
    requires a >= 0 && b >= 0
    ensures a * b >= 0
  {
  }

  lemma MulAtLeast(a: int, b: int)
    requires a >= 1 && b >= 0
    ensures a * b >= b
  {
    Distributes(a - 1, 1, b);
  }

  // ---------------------------------------------------------------------------
  // What gets drawn

  /** A colour: a named one, or `plt.cm.cividis(i / n)`, or entry k of plotly's qualitative Set3 palette. */
  datatype Colour = Named(name: string) | Cividis(i: int, n: int) | Set3(k: nat)

  /** An arrow from (x1, y1) to (x2, y2). */
  datatype Arrow = Arrow(x1: int, y1: int, x2: int, y2: int, colour: Colour)

  /** A scatter dot. */
  datatype Dot = Dot(x: int, y: int, colour: Colour)

  /** The text `p{p}` placed at (x, y). */
  datatype Tag = Tag(x: int, y: int, p: int)

  /** Lines 31-34 of N_VA_StaticAbsolute.py and 27-30 of N_VA_StaticAbsolute_tennis.py. */
  function Palette(poi: int): (cs: seq<Colour>)
  {
    if poi == 3 then [Named("black"), Named("blue"), Named("magenta")]
    else seq(Max0(poi), i requires 0 <= i < Max0(poi) => Cividis(i, poi))
  }

  /** Three points get the fixed list; any other count gets exactly that many cividis shades, shade i being `i / poi`. */
  lemma PaletteShape(poi: int)
    ensures poi == 3 ==> Palette(poi) == [Named("black"), Named("blue"), Named("magenta")]
    ensures poi != 3 ==> |Palette(poi)| == Max0(poi) && forall i :: 0 <= i < Max0(poi) ==> Palette(poi)[i] == Cividis(i, poi)
    ensures |Palette(poi)| == Max0(poi)
  {
  }

  /** `colors[p % len(colors)]` is in bounds, and different points get different colours. */
  lemma PaletteDistinguishesPoints(poi: int, p: int, q: int)
    requires 0 <= p < poi && 0 <= q < poi && p != q
    ensures |Palette(poi)| > 0 && 0 <= p % |Palette(poi)| < |Palette(poi)|
    ensures Palette(poi)[p % |Palette(poi)|] != Palette(poi)[q % |Palette(poi)|]
  {
    var cs := Palette(poi);
    PaletteShape(poi);
    ModBelow(p, |cs|);
    ModBelow(q, |cs|);
    if poi == 3 {
      assert cs[p] != cs[q];
    } else {
      assert cs[p] == Cividis(p, poi) && cs[q] == Cividis(q, poi);
    }
  }

  lemma ModBelow(a: int, n: int)
    requires 0 <= a < n
    ensures a % n == a
  {
  }

  /** Later timestamps of a point sit further down, one `poi` apart. */
  lemma SlotOrder(p: int, i: int, j: int, poi: int)
    requires 0 <= p && 0 <= i <= j && poi >= 1
    ensures 0 <= Slot(p, i, poi) <= Slot(p, j, poi)
    ensures Slot(p, i + 1, poi) == Slot(p, i, poi) + poi
  {
    Distributes(i, j - i, poi);
    Distributes(i, 1, poi);
  }

  /** The arrow of point p between timestamps i and i + 1, in colour `colours[p % len(colours)]`. */
  function Segment(rows: seq<Sample>, poi: int, colours: seq<Colour>, p: int, i: int): (a: Arrow)
    requires 0 <= p < poi && 0 <= i && Slot(p, i + 1, poi) < |rows| && colours != []
  {
    SlotOrder(p, i, i + 1, poi);
    var from, to := rows[Slot(p, i, poi)], rows[Slot(p, i + 1, poi)];
    Arrow(from.x, from.y, to.x, to.y, colours[p % |colours|])
  }

  /** The first m arrows of point p, in timestamp order. */
  function PointArrows(rows: seq<Sample>, poi: int, colours: seq<Colour>, p: int, m: nat): (r: seq<Arrow>)
    requires 0 <= p < poi && (m == 0 || Slot(p, m, poi) < |rows|) && colours != []
    ensures |r| == m
    ensures forall i :: 0 <= i < m ==> Slot(p, i + 1, poi) < |rows| && r[i] == Segment(rows, poi, colours, p, i)
  {
    assert forall i :: 1 <= i <= m ==> Slot(p, i, poi) < |rows| by {
      forall i | 1 <= i <= m ensures Slot(p, i, poi) < |rows| {
        SlotOrder(p, i, m, poi);
      }
    }
    seq(m, i requires 0 <= i < m => Segment(rows, poi, colours, p, i))
  }

  /** The tst - 1 arrows of each of the first n points, point after point. */
  function Arrows(rows: seq<Sample>, poi: int, tst: int, colours: seq<Colour>, n: nat): (r: seq<Arrow>)
    requires n <= poi && tst >= 2 && (n == 0 || Slot(n - 1, tst - 1, poi) < |rows|) && colours != []
    ensures |r| == n * (tst - 1)
  {
    if n == 0 then []
    else
      assert n - 1 == 0 || Slot(n - 2, tst - 1, poi) < |rows|;
      Arrows(rows, poi, tst, colours, n - 1) + PointArrows(rows, poi, colours, n - 1, tst - 1)
  }

  /** One more point appends its arrows. */
  lemma ArrowsSnoc(rows: seq<Sample>, poi: int, tst: int, colours: seq<Colour>, n: nat)
    requires n < poi && tst >= 2 && Slot(n, tst - 1, poi) < |rows| && colours != []
    ensures n == 0 || Slot(n - 1, tst - 1, poi) < |rows|
    ensures Arrows(rows, poi, tst, colours, n + 1) == Arrows(rows, poi, tst, colours, n) + PointArrows(rows, poi, colours, n, tst - 1)
  {
  }

  /** Arrow number `p * (tst - 1) + i` is the segment of point p from timestamp i to i + 1. */
  lemma {:induction false} ArrowAt(rows: seq<Sample>, poi: int, tst: int, colours: seq<Colour>, n: nat, p: int, i: int)
    requires n <= poi && tst >= 2 && (n == 0 || Slot(n - 1, tst - 1, poi) < |rows|) && colours != []
    requires 0 <= p < n && 0 <= i < tst - 1
    ensures Slot(p, i + 1, poi) < |rows|
    ensures 0 <= p * (tst - 1) + i < |Arrows(rows, poi, tst, colours, n)|
    ensures Arrows(rows, poi, tst, colours, n)[p * (tst - 1) + i] == Segment(rows, poi, colours, p, i)
  {
    var prev := Arrows(rows, poi, tst, colours, n - 1);
    assert |prev| == (n - 1) * (tst - 1);
    Distributes(n - 1, 1, tst - 1);
    if p < n - 1 {
      assert Slot(n - 2, tst - 1, poi) < |rows|;
      ArrowAt(rows, poi, tst, colours, n - 1, p, i);
    } else {
      SlotOrder(p, i + 1, tst - 1, poi);
      assert p * (tst - 1) + i == |prev| + i;
    }
  }

  /** Consecutive arrows of a point join up: each starts where the previous one ends. */
  lemma ArrowsChain(rows: seq<Sample>, poi: int, colours: seq<Colour>, p: int, i: int)
    requires 0 <= p < poi && 0 <= i && Slot(p, i + 2, poi) < |rows| && colours != []
    ensures Slot(p, i + 1, poi) < |rows|
    ensures Segment(rows, poi, colours, p, i + 1).x1 == Segment(rows, poi, colours, p, i).x2
    ensures Segment(rows, poi, colours, p, i + 1).y1 == Segment(rows, poi, colours, p, i).y2
  {
    SlotOrder(p, i + 1, i + 2, poi);
  }

  /** `x_coords`: the x values of the arrows, start then end, arrow after arrow. */
  function XCoords(arrows: seq<Arrow>): (r: seq<int>)
    ensures |r| == 2 * |arrows|
  {
    seq(2 * |arrows|, k requires 0 <= k < 2 * |arrows| => if k % 2 == 0 then arrows[k / 2].x1 else arrows[k / 2].x2)
  }

  /** `y_coords`: the y values of the arrows, start then end, arrow after arrow. */
  function YCoords(arrows: seq<Arrow>): (r: seq<int>)
    ensures |r| == 2 * |arrows|
  {
    seq(2 * |arrows|, k requires 0 <= k < 2 * |arrows| => if k % 2 == 0 then arrows[k / 2].y1 else arrows[k / 2].y2)
  }

  /** Arrow n contributes entries 2n and 2n + 1 of each list: its start, then its end. */
  lemma CoordsAt(arrows: seq<Arrow>)
    ensures forall n :: 0 <= n < |arrows| ==>
      && XCoords(arrows)[2 * n] == arrows[n].x1 && XCoords(arrows)[2 * n + 1] == arrows[n].x2
      && YCoords(arrows)[2 * n] == arrows[n].y1 && YCoords(arrows)[2 * n + 1] == arrows[n].y2
  {
    forall n | 0 <= n < |arrows|
      ensures XCoords(arrows)[2 * n] == arrows[n].x1 && XCoords(arrows)[2 * n + 1] == arrows[n].x2
      ensures YCoords(arrows)[2 * n] == arrows[n].y1 && YCoords(arrows)[2 * n + 1] == arrows[n].y2
    {
      Halves(n);
    }
  }

  /** Entries 2n and 2n + 1 both belong to arrow n, the first being its start. */
  lemma Halves(n: int)
    requires n >= 0
    ensures (2 * n) / 2 == n && (2 * n + 1) / 2 == n && (2 * n) % 2 == 0 && (2 * n + 1) % 2 == 1
  {
  }

  /** Appending an arrow appends its two end points. */
  lemma CoordsSnoc(arrows: seq<Arrow>, a: Arrow)
    ensures XCoords(arrows + [a]) == XCoords(arrows) + [a.x1, a.x2]
    ensures YCoords(arrows + [a]) == YCoords(arrows) + [a.y1, a.y2]
  {
    var b := arrows + [a];
    forall k | 0 <= k < 2 * |b| ensures k / 2 < |b| && (k < 2 * |arrows| ==> k / 2 < |arrows| && b[k / 2] == arrows[k / 2]) && (k >= 2 * |arrows| ==> k / 2 == |arrows| && (k % 2 == 0 <==> k == 2 * |arrows|)) {
    }
    assert XCoords(b) == XCoords(arrows) + [a.x1, a.x2];
    assert YCoords(b) == YCoords(arrows) + [a.y1, a.y2];
  }

  /** One more interval of point p appends its segment. */
  lemma PointArrowsSnoc(rows: seq<Sample>, poi: int, colours: seq<Colour>, p: int, m: nat)
    requires 0 <= p < poi && Slot(p, m + 1, poi) < |rows| && colours != []
    ensures m == 0 || Slot(p, m, poi) < |rows|
    ensures PointArrows(rows, poi, colours, p, m + 1) == PointArrows(rows, poi, colours, p, m) + [Segment(rows, poi, colours, p, m)]
  {
    SlotOrder(p, m, m + 1, poi);
  }

  /** The labels `p{p}`, one per point, at the point's first position. */
  function Tags(rows: seq<Sample>, poi: int): (r: seq<Tag>)
    requires 0 <= poi <= |rows|
    ensures |r| == poi
    ensures forall p :: 0 <= p < poi ==> r[p] == Tag(rows[Slot(p, 0, poi)].x, rows[Slot(p, 0, poi)].y, p)
  {
    seq(poi, p requires 0 <= p < poi => Tag(rows[p].x, rows[p].y, p))
  }

  /** One more point appends its label. */
  lemma TagsSnoc(rows: seq<Sample>, p: nat)
    requires p < |rows|
    ensures Tags(rows, p + 1) == Tags(rows, p) + [Tag(rows[p].x, rows[p].y, p)]
  {
  }

  /** The single-timestamp scatter: row k in colour `colours[k % len(colours)]`. */
  function Dots(rows: seq<Sample>, colours: seq<Colour>): (r: seq<Dot>)
    requires colours != []
    ensures |r| == |rows|
    ensures forall k :: 0 <= k < |rows| ==> r[k] == Dot(rows[k].x, rows[k].y, colours[k % |colours|])
  {
    seq(|rows|, k requires 0 <= k < |rows| => Dot(rows[k].x, rows[k].y, colours[k % |colours|]))
  }
}
