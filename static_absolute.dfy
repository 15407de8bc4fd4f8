/**
 * N_VA_StaticAbsolute.py: one figure per configuration. With a single
 * timestamp every row is a dot; otherwise every point gets an arrow per
 * interval between consecutive timestamps, a `p{p}` label at its first
 * position, and the arrows' end points are collected in `x_coords` and
 * `y_coords` while `vector_index` counts them.
 */
module StaticAbsolute {
  import opened Wrappers
  import opened Files
  import opened Plots

  /**
   * What the loops leave behind for one configuration. On the `tst == 1`
   * scatter path the source never assigns `vector_index`; the 0 the model
   * stores there is a placeholder, not a value the source computes.
   */
  datatype Figure = Figure(
    config: int,
    dots: seq<Dot>, arrows: seq<Arrow>, tags: seq<Tag>,
    xCoords: seq<int>, yCoords: seq<int>, vectorIndex: int)

  /**
   * The figure of a configuration with `n` rows can be drawn: with one
   * timestamp the colour list must not be empty (`k % len(colors)`), with
   * more the last segment must end inside the rows.
   */
  predicate Drawable(n: int, poi: int, tst: int) {
    if tst == 1 then n == 0 || poi == 3 || poi > 0
    else poi < 1 || tst < 2 || tst * poi <= n
  }

  /**
   * The exception lines 82-115 raise for a configuration of n rows: the
   * scatter's `% len(colors)` on an empty colour list, or the first `iloc`
   * past the rows.
   */
  function Failure(n: int, poi: int, tst: int): (e: Option<Error>)
    ensures e.None? <==> Drawable(n, poi, tst)
    ensures e.Some? && tst != 1 ==> e.value.IndexOutOfRange? && e.value.index >= n
  {
    if Drawable(n, poi, tst) then None
    else if tst == 1 then Some(ZeroDivision)
    else Some(IndexOutOfRange(SlotFailure(n, poi, tst)))
  }

  /** What running the module on the rows raises: the exception of its first configuration that cannot be drawn. */
  function PlotFailure(rows: seq<Sample>, poi: int, tst: int): Option<Error> {
    FailureFrom(rows, Configurations(rows), n => Failure(n, poi, tst))
  }

  /** The figure the loops of lines 82-115 produce. */
  function Expected(rows: seq<Sample>, config: int, poi: int, tst: int): Figure
    requires Drawable(|rows|, poi, tst)
  {
    if tst == 1 then
      // vectorIndex 0: a placeholder, the scatter path sets no `vector_index`
      if rows == [] then Figure(config, [], [], [], [], [], 0)
      else Figure(config, Dots(rows, Palette(poi)), [], [], [], [], 0)
    else if poi < 1 || tst < 2 then Figure(config, [], [], [], [], [], 0)
    else
      LastSlot(poi, tst);
      SlotOrder(poi - 1, 0, tst - 1, poi);
      var arrows := Arrows(rows, poi, tst, Palette(poi), poi);
      Figure(config, [], arrows, Tags(rows, poi), XCoords(arrows), YCoords(arrows), |arrows|)
  }

  /**
   * After the loops `vector_index` is `poi * (tst - 1)`, both coordinate
   * lists hold two entries per arrow, and there is one label per point.
   */
  lemma ExpectedCounts(rows: seq<Sample>, config: int, poi: int, tst: int)
    requires Drawable(|rows|, poi, tst) && tst != 1
    ensures var f := Expected(rows, config, poi, tst);
      && f.vectorIndex == Max0(poi) * Max0(tst - 1)
      && |f.arrows| == f.vectorIndex
      && |f.xCoords| == 2 * f.vectorIndex && |f.yCoords| == 2 * f.vectorIndex
      && |f.tags| == (if tst >= 2 then Max0(poi) else 0)
      && f.dots == []
  {
  }

  /** Arrow `p * (tst - 1) + i` runs from the row of point p at timestamp i to its row at timestamp i + 1, both inside the table. */
  lemma ExpectedSegments(rows: seq<Sample>, config: int, poi: int, tst: int, p: int, i: int)
    requires Drawable(|rows|, poi, tst) && tst >= 2 && 0 <= p < poi && 0 <= i < tst - 1
    ensures var f := Expected(rows, config, poi, tst);
      && 0 <= Slot(p, i, poi) < Slot(p, i + 1, poi) < tst * poi <= |rows|
      && 0 <= p * (tst - 1) + i < |f.arrows|
      && f.arrows[p * (tst - 1) + i] == Arrow(
           rows[Slot(p, i, poi)].x, rows[Slot(p, i, poi)].y,
           rows[Slot(p, i + 1, poi)].x, rows[Slot(p, i + 1, poi)].y,
           Palette(poi)[p % |Palette(poi)|])
  {
    SlotInBounds(p, i + 1, poi, tst);
    SlotOrder(p, i, i + 1, poi);
    LastSlot(poi, tst);
    ArrowAt(rows, poi, tst, Palette(poi), poi, p, i);
  }

  /** The label of point p sits at its first position, the row of timestamp 0. */
  lemma ExpectedTags(rows: seq<Sample>, config: int, poi: int, tst: int, p: int)
    requires Drawable(|rows|, poi, tst) && tst >= 2 && 0 <= p < poi
    ensures var f := Expected(rows, config, poi, tst);
      && |f.tags| == poi && f.tags[p] == Tag(rows[p].x, rows[p].y, p)
      && forall q :: 0 <= q < |f.tags| && f.tags[q].p == p ==> q == p
  {
  }

  /** Lines 82-85: one dot per row; `k % len(colors)` divides by zero when the colour list is empty. */
  method Scatter(rows: seq<Sample>, colors: seq<Colour>) returns (dots: seq<Dot>, err: Option<Error>)
    ensures err.None? <==> rows == [] || colors != []
    ensures err.Some? ==> err.value == ZeroDivision
    ensures err.None? && colors != [] ==> dots == Dots(rows, colors)
    ensures rows == [] ==> dots == []
  {
    dots := [];
    err := None;
    var k := 0;
    while k < |rows|
      invariant 0 <= k <= |rows|
      invariant colors != [] ==> dots == Dots(rows[..k], colors)
      invariant k > 0 ==> colors != []
      invariant k == 0 ==> dots == []
    {
      if |colors| == 0 {
        err := Some(ZeroDivision);
        return;
      }
      dots := dots + [Dot(rows[k].x, rows[k].y, colors[k % |colors|])];
      k := k + 1;
    }
    assert rows[..k] == rows;
  }

  /**
   * Lines 90-115 for point p: its tst - 1 arrows are appended, their end
   * points extend `x_coords` and `y_coords`, `vector_index` counts them and
   * the label goes to the first. The reads stay in bounds exactly when the
   * point's last row exists.
   */
  method DrawPoint(rows: seq<Sample>, poi: int, tst: int, colors: seq<Colour>, p: int,
                   arrows: seq<Arrow>, tags: seq<Tag>, xCoords: seq<int>, yCoords: seq<int>, vectorIndex: int)
    returns (arrows': seq<Arrow>, tags': seq<Tag>, xCoords': seq<int>, yCoords': seq<int>, vectorIndex': int, err: Option<Error>)
    requires 0 <= p < poi && tst >= 2 && colors != []
    requires xCoords == XCoords(arrows) && yCoords == YCoords(arrows) && vectorIndex == |arrows|
    ensures err.None? <==> Slot(p, tst - 1, poi) < |rows|
    ensures err.Some? ==> err == Some(IndexOutOfRange(Slot(p, FirstMissing(|rows|, poi, p, 0, tst - 1), poi)))
    ensures err.None? ==> (p < |rows|
      && arrows' == arrows + PointArrows(rows, poi, colors, p, tst - 1)
      && tags' == tags + [Tag(rows[p].x, rows[p].y, p)]
      && xCoords' == XCoords(arrows') && yCoords' == YCoords(arrows') && vectorIndex' == |arrows'|)
  {
    arrows', tags', xCoords', yCoords', vectorIndex' := arrows, tags, xCoords, yCoords, vectorIndex;
    err := None;
    var i := 0;
    while i < tst - 1
      invariant 0 <= i <= tst - 1
      invariant i > 0 ==> Slot(p, i, poi) < |rows| && p < |rows|
      invariant arrows' == arrows + PointArrows(rows, poi, colors, p, i)
      invariant tags' == tags + (if i > 0 then [Tag(rows[p].x, rows[p].y, p)] else [])
      invariant xCoords' == XCoords(arrows') && yCoords' == YCoords(arrows') && vectorIndex' == |arrows'|
      invariant FirstMissing(|rows|, poi, p, 0, tst - 1) == FirstMissing(|rows|, poi, p, i, tst - 1)
    {
      var from := Slot(p, i, poi);
      var to := from + poi;
      SlotOrder(p, i, i + 1, poi);
      if to >= |rows| {
        SlotOrder(p, i + 1, tst - 1, poi);
        err := Some(IndexOutOfRange(if from >= |rows| then from else to));
        return;
      }
      var a := Arrow(rows[from].x, rows[from].y, rows[to].x, rows[to].y, colors[p % |colors|]);
      assert a == Segment(rows, poi, colors, p, i);
      PointArrowsSnoc(rows, poi, colors, p, i);
      CoordsSnoc(arrows', a);
      arrows' := arrows' + [a];
      xCoords' := xCoords' + [a.x1, a.x2];
      yCoords' := yCoords' + [a.y1, a.y2];
      if i == 0 {
        tags' := tags' + [Tag(a.x1, a.y1, p)];
      }
      vectorIndex' := vectorIndex' + 1;
      i := i + 1;
    }
  }

  /** Lines 87-115: the segment loops over every point, stopping at the first read past the rows. */
  method DrawSegments(rows: seq<Sample>, poi: int, tst: int, colors: seq<Colour>)
    returns (arrows: seq<Arrow>, tags: seq<Tag>, xCoords: seq<int>, yCoords: seq<int>, vectorIndex: int, err: Option<Error>)
    requires poi >= 1 && tst >= 2 && colors != []
    ensures err.None? <==> tst * poi <= |rows|
    ensures err.Some? ==> err == Some(IndexOutOfRange(SlotFailure(|rows|, poi, tst)))
    ensures err.None? ==> (Slot(poi - 1, tst - 1, poi) < |rows| && poi <= |rows|
      && arrows == Arrows(rows, poi, tst, colors, poi) && tags == Tags(rows, poi)
      && xCoords == XCoords(arrows) && yCoords == YCoords(arrows) && vectorIndex == |arrows|)
  {
    arrows, tags, xCoords, yCoords, vectorIndex := [], [], [], [], 0;
    err := None;
    var p := 0;
    while p < poi
      invariant 0 <= p <= poi && err.None?
      invariant p > 0 ==> Slot(p - 1, tst - 1, poi) < |rows|
      invariant arrows == Arrows(rows, poi, tst, colors, p)
      invariant p <= |rows| && tags == Tags(rows, p)
      invariant xCoords == XCoords(arrows) && yCoords == YCoords(arrows) && vectorIndex == |arrows|
      invariant FirstIncomplete(|rows|, poi, 0, tst - 1) == FirstIncomplete(|rows|, poi, p, tst - 1)
    {
      arrows, tags, xCoords, yCoords, vectorIndex, err := DrawPoint(rows, poi, tst, colors, p, arrows, tags, xCoords, yCoords, vectorIndex);
      if err.Some? {
        SlotFailureAt(|rows|, poi, tst, p);
        return;
      }
      ArrowsSnoc(rows, poi, tst, colors, p);
      TagsSnoc(rows, p);
      p := p + 1;
    }
    LastSlot(poi, tst);
  }

  /** Lines 82-115 for the rows of one configuration. */
  method DrawConfiguration(rows: seq<Sample>, config: int, poi: int, tst: int) returns (fig: Figure, err: Option<Error>)
    ensures err == Failure(|rows|, poi, tst)
    ensures err.None? ==> fig == Expected(rows, config, poi, tst)
  {
    var colors := Palette(poi);
    PaletteShape(poi);
    fig := Figure(config, [], [], [], [], [], 0);
    err := None;
    if tst == 1 {
      var dots;
      dots, err := Scatter(rows, colors);
      fig := fig.(dots := dots);
    } else if poi >= 1 && tst >= 2 {
      var arrows, tags, xCoords, yCoords, vectorIndex;
      arrows, tags, xCoords, yCoords, vectorIndex, err := DrawSegments(rows, poi, tst, colors);
      fig := Figure(config, [], arrows, tags, xCoords, yCoords, vectorIndex);
    }
    // otherwise `range(av.tst - 1)` or `range(av.poi)` is empty: nothing is drawn
  }

  /**
   * Lines 37-124: one figure per configuration, in order of first
   * appearance; the first configuration that cannot be drawn raises, and
   * the figures saved before it stay.
   */
  method DrawAll(rows: seq<Sample>, poi: int, tst: int) returns (figs: seq<Figure>, err: Option<Error>)
    ensures var cs := Configurations(rows);
      && (err.None? <==> forall c :: c in cs ==> Drawable(|RowsOf(rows, c)|, poi, tst))
      && |figs| <= |cs|
      && (forall n :: 0 <= n < |figs| ==> Drawable(|RowsOf(rows, cs[n])|, poi, tst) && figs[n] == Expected(RowsOf(rows, cs[n]), cs[n], poi, tst))
      && (err.None? ==> |figs| == |cs|)
      && (err.Some? ==> |figs| < |cs| && !Drawable(|RowsOf(rows, cs[|figs|])|, poi, tst))
      && err == PlotFailure(rows, poi, tst)
  {
    var cs := Configurations(rows);
    ghost var fail := k => Failure(k, poi, tst);
    figs := [];
    err := None;
    var n := 0;
    while n < |cs|
      invariant 0 <= n <= |cs| && |figs| == n && err.None?
      invariant forall m :: 0 <= m < n ==> Drawable(|RowsOf(rows, cs[m])|, poi, tst) && figs[m] == Expected(RowsOf(rows, cs[m]), cs[m], poi, tst)
    {
      var fig;
      fig, err := DrawConfiguration(RowsOf(rows, cs[n]), cs[n], poi, tst);
      if err.Some? {
        FailureFromAt(rows, cs, fail, n);
        assert cs[n] in cs;
        return;
      }
      figs := figs + [fig];
      n := n + 1;
    }
    assert forall c :: c in cs ==> exists m :: 0 <= m < |cs| && cs[m] == c;
  }
}
