/**
 * N_VA_StaticAbsolute_tennis.py: the same figures as N_VA_StaticAbsolute.py
 * from a table with a header row (columns `constant`, `x`, `y`), without
 * collecting the arrows' end points.
 */
module StaticAbsoluteTennis {
  import opened Wrappers
  import opened Files
  import opened Plots
  import StaticAbsolute

  /** What the loops leave behind for one configuration. */
  datatype Figure = Figure(config: int, dots: seq<Dot>, arrows: seq<Arrow>, tags: seq<Tag>, vectorIndex: int)

  /** The figure the loops of lines 74-97 produce. */
  function Expected(rows: seq<Sample>, config: int, poi: int, tst: int): Figure
    requires StaticAbsolute.Drawable(|rows|, poi, tst)
  {
    if tst == 1 then
      if rows == [] then Figure(config, [], [], [], 0)
      else Figure(config, Dots(rows, Palette(poi)), [], [], 0)
    else if poi < 1 || tst < 2 then Figure(config, [], [], [], 0)
    else
      LastSlot(poi, tst);
      SlotOrder(poi - 1, 0, tst - 1, poi);
      var arrows := Arrows(rows, poi, tst, Palette(poi), poi);
      Figure(config, [], arrows, Tags(rows, poi), |arrows|)
  }

  /** `vector_index` ends at `poi * (tst - 1)`, and every point is labelled once, at its first position. */
  lemma ExpectedCounts(rows: seq<Sample>, config: int, poi: int, tst: int)
    requires StaticAbsolute.Drawable(|rows|, poi, tst) && tst >= 2 && poi >= 1
    ensures var f := Expected(rows, config, poi, tst);
      && f.vectorIndex == poi * (tst - 1) == |f.arrows|
      && |f.tags| == poi
      && forall p :: 0 <= p < poi ==> f.tags[p] == Tag(rows[p].x, rows[p].y, p)
  {
  }

  /** The figure is that of N_VA_StaticAbsolute.py without the coordinate lists. */
  lemma SameAsStaticAbsolute(rows: seq<Sample>, config: int, poi: int, tst: int)
    requires StaticAbsolute.Drawable(|rows|, poi, tst)
    ensures var f := Expected(rows, config, poi, tst);
      var g := StaticAbsolute.Expected(rows, config, poi, tst);
      f.dots == g.dots && f.arrows == g.arrows && f.tags == g.tags && f.vectorIndex == g.vectorIndex
  {
  }

  /** Lines 84-97 for point p: its tst - 1 arrows, counted by `vector_index`, and its label at the first. */
  method DrawPoint(rows: seq<Sample>, poi: int, tst: int, colors: seq<Colour>, p: int,
                   arrows: seq<Arrow>, tags: seq<Tag>, vectorIndex: int)
    returns (arrows': seq<Arrow>, tags': seq<Tag>, vectorIndex': int, err: Option<Error>)
    requires 0 <= p < poi && tst >= 2 && colors != [] && vectorIndex == |arrows|
    ensures err.None? <==> Slot(p, tst - 1, poi) < |rows|
    ensures err.Some? ==> err == Some(IndexOutOfRange(Slot(p, FirstMissing(|rows|, poi, p, 0, tst - 1), poi)))
    ensures err.None? ==> (p < |rows|
      && arrows' == arrows + PointArrows(rows, poi, colors, p, tst - 1)
      && tags' == tags + [Tag(rows[p].x, rows[p].y, p)]
      && vectorIndex' == |arrows'|)
  {
    arrows', tags', vectorIndex' := arrows, tags, vectorIndex;
    err := None;
    var i := 0;
    while i < tst - 1
      invariant 0 <= i <= tst - 1
      invariant i > 0 ==> Slot(p, i, poi) < |rows| && p < |rows|
      invariant arrows' == arrows + PointArrows(rows, poi, colors, p, i)
      invariant tags' == tags + (if i > 0 then [Tag(rows[p].x, rows[p].y, p)] else [])
      invariant vectorIndex' == |arrows'|
      invariant FirstMissing(|rows|, poi, p, 0, tst - 1) == FirstMissing(|rows|, poi, p, i, tst - 1)
    {
      var from := Slot(p, i, poi);
      var to := from + poi;
      SlotOrder(p, i, i + 1, poi);
      if to >= |rows| {
        SlotOrder(p, i + 1, tst - 1, poi);
        err := Some(IndexOutOfRange(if from >= |rows| then from else to));
        return;
      }
      var a := Arrow(rows[from].x, rows[from].y, rows[to].x, rows[to].y, colors[p % |colors|]);
      assert a == Segment(rows, poi, colors, p, i);
      PointArrowsSnoc(rows, poi, colors, p, i);
      arrows' := arrows' + [a];
      if i == 0 {
        tags' := tags' + [Tag(a.x1, a.y1, p)];
      }
      vectorIndex' := vectorIndex' + 1;
      i := i + 1;
    }
  }

  /** Lines 81-97: the segment loops over every point, stopping at the first read past the rows. */
  method DrawSegments(rows: seq<Sample>, poi: int, tst: int, colors: seq<Colour>)
    returns (arrows: seq<Arrow>, tags: seq<Tag>, vectorIndex: int, err: Option<Error>)
    requires poi >= 1 && tst >= 2 && colors != []
    ensures err.None? <==> tst * poi <= |rows|
    ensures err.Some? ==> err == Some(IndexOutOfRange(SlotFailure(|rows|, poi, tst)))
    ensures err.None? ==> (Slot(poi - 1, tst - 1, poi) < |rows| && poi <= |rows|
      && arrows == Arrows(rows, poi, tst, colors, poi) && tags == Tags(rows, poi) && vectorIndex == |arrows|)
  {
    arrows, tags, vectorIndex := [], [], 0;
    err := None;
    var p := 0;
    while p < poi
      invariant 0 <= p <= poi && err.None?
      invariant p > 0 ==> Slot(p - 1, tst - 1, poi) < |rows|
      invariant arrows == Arrows(rows, poi, tst, colors, p)
      invariant p <= |rows| && tags == Tags(rows, p)
      invariant vectorIndex == |arrows|
      invariant FirstIncomplete(|rows|, poi, 0, tst - 1) == FirstIncomplete(|rows|, poi, p, tst - 1)
    {
      arrows, tags, vectorIndex, err := DrawPoint(rows, poi, tst, colors, p, arrows, tags, vectorIndex);
      if err.Some? {
        SlotFailureAt(|rows|, poi, tst, p);
        return;
      }
      ArrowsSnoc(rows, poi, tst, colors, p);
      TagsSnoc(rows, p);
      p := p + 1;
    }
    LastSlot(poi, tst);
  }

  /** Lines 74-97 for the rows of one configuration. */
  method DrawConfiguration(rows: seq<Sample>, config: int, poi: int, tst: int) returns (fig: Figure, err: Option<Error>)
    ensures err == StaticAbsolute.Failure(|rows|, poi, tst)
    ensures err.None? ==> fig == Expected(rows, config, poi, tst)
  {
    var colors := Palette(poi);
    PaletteShape(poi);
    fig := Figure(config, [], [], [], 0);
    err := None;
    if tst == 1 {
      var dots;
      dots, err := StaticAbsolute.Scatter(rows, colors);
      fig := fig.(dots := dots);
    } else if poi >= 1 && tst >= 2 {
      var arrows, tags, vectorIndex;
      arrows, tags, vectorIndex, err := DrawSegments(rows, poi, tst, colors);
      fig := Figure(config, [], arrows, tags, vectorIndex);
    }
    // otherwise `range(av.tst - 1)` or `range(av.poi)` is empty: nothing is drawn
  }

  /** Lines 33-121: one figure per configuration, in order of first appearance, up to the first that cannot be drawn. */
  method DrawAll(rows: seq<Sample>, poi: int, tst: int) returns (figs: seq<Figure>, err: Option<Error>)
    ensures var cs := Configurations(rows);
      && (err.None? <==> forall c :: c in cs ==> StaticAbsolute.Drawable(|RowsOf(rows, c)|, poi, tst))
      && |figs| <= |cs|
      && (forall n :: 0 <= n < |figs| ==> StaticAbsolute.Drawable(|RowsOf(rows, cs[n])|, poi, tst) && figs[n] == Expected(RowsOf(rows, cs[n]), cs[n], poi, tst))
      && (err.None? ==> |figs| == |cs|)
      && (err.Some? ==> |figs| < |cs| && !StaticAbsolute.Drawable(|RowsOf(rows, cs[|figs|])|, poi, tst))
      && err == StaticAbsolute.PlotFailure(rows, poi, tst)
  {
    var cs := Configurations(rows);
    ghost var fail := k => StaticAbsolute.Failure(k, poi, tst);
    figs := [];
    err := None;
    var n := 0;
    while n < |cs|
      invariant 0 <= n <= |cs| && |figs| == n && err.None?
      invariant forall m :: 0 <= m < n ==> StaticAbsolute.Drawable(|RowsOf(rows, cs[m])|, poi, tst) && figs[m] == Expected(RowsOf(rows, cs[m]), cs[m], poi, tst)
    {
      var fig;
      fig, err := DrawConfiguration(RowsOf(rows, cs[n]), cs[n], poi, tst);
      if err.Some? {
        FailureFromAt(rows, cs, fail, n);
        assert cs[n] in cs;
        return;
      }
      figs := figs + [fig];
      n := n + 1;
    }
    assert forall c :: c in cs ==> exists m :: 0 <= m < |cs| && cs[m] == c;
  }
}
