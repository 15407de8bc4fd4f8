/**
 * N_VA_TennisCourt.py: one court figure per configuration. With a single
 * timestamp every point is a marker; otherwise every point gets its
 * trajectory (its rows at timestamps 0 .. tst - 1), a line through it, one
 * arrow annotation per interval and a marker trace labelled `p{p}` at the
 * first position.
 */
module TennisCourt {
  import opened Wrappers
  import opened Files
  import opened Plots

  /** The number of colours in plotly's qualitative Set3 palette. */
  const SET3_SIZE := 12

  /** The legend name of a point. */
  datatype Label = Name(s: string) | Punt(i: int)   // `Punt(i)` is the text f'Punt {i}'

  /** A marker text: `p{p}` or the empty string. */
  datatype Text = PointName(p: int) | NoText

  /** A plotly trace. */
  datatype Trace =
    | Marker(x: int, y: int, colour: Colour, text: Text, name: Label)                   // lines 57-74
    | Path(xs: seq<int>, ys: seq<int>, colour: Colour, name: Label)                     // lines 88-102, named f'{label} traject'
    | Positions(xs: seq<int>, ys: seq<int>, colour: Colour, texts: seq<Text>, name: Label) // lines 134-152, named f'{label} posities'

  /** What the loops add to the figure of one configuration: traces, and arrows as annotations. */
  datatype Court = Court(config: int, traces: seq<Trace>, annotations: seq<Arrow>)

  /** Lines 26-37: the colours. */
  function CourtColours(poi: int): seq<Colour> {
    if poi == 2 then [Named("yellow"), Named("cyan")]
    else if poi == 3 then [Named("yellow"), Named("cyan"), Named("white")]
    else seq(Max0(poi), i requires 0 <= i < Max0(poi) => Set3(i % SET3_SIZE))
  }

  /** Lines 26-37: the legend names. */
  function CourtLabels(poi: int): seq<Label> {
    if poi == 2 then [Name("Speler 1"), Name("Speler 2")]
    else if poi == 3 then [Name("Speler 1"), Name("Speler 2"), Name("Bal")]
    else seq(Max0(poi), i requires 0 <= i < Max0(poi) => Punt(i))
  }

  /**
   * Two points are the players, three the players and the ball; any other
   * count gets as many Set3 colours, taken cyclically, and `Punt i` names.
   * Either way there are exactly `poi` of each, and for any p a lookup
   * modulo the list's length is in bounds.
   */
  lemma CourtPalettes(poi: int, p: int)
    requires poi >= 1
    ensures |CourtColours(poi)| == Max0(poi) && |CourtLabels(poi)| == Max0(poi)
    ensures poi != 2 && poi != 3 ==> forall i :: 0 <= i < poi ==> CourtColours(poi)[i] == Set3(i % SET3_SIZE) && CourtLabels(poi)[i] == Punt(i)
    ensures CourtLabels(poi)[p % poi] in CourtLabels(poi) && CourtColours(poi)[p % poi] in CourtColours(poi)
  {
  }

  /** Lines 82-85: the x values of point p's trajectory. */
  function TrackX(rows: seq<Sample>, poi: int, tst: int, p: int): (r: seq<int>)
    requires 0 <= p < poi && (tst < 1 || Slot(p, tst - 1, poi) < |rows|)
    ensures |r| == Max0(tst)
    ensures forall i :: 0 <= i < Max0(tst) ==> 0 <= Slot(p, i, poi) < |rows| && r[i] == rows[Slot(p, i, poi)].x
  {
    assert forall i :: 0 <= i < Max0(tst) ==> 0 <= Slot(p, i, poi) < |rows| by {
      forall i | 0 <= i < Max0(tst) ensures 0 <= Slot(p, i, poi) < |rows| {
        SlotOrder(p, i, tst - 1, poi);
      }
    }
    seq(Max0(tst), i requires 0 <= i < Max0(tst) => rows[Slot(p, i, poi)].x)
  }

  /** Lines 82-85: the y values of point p's trajectory. */
  function TrackY(rows: seq<Sample>, poi: int, tst: int, p: int): (r: seq<int>)
    requires 0 <= p < poi && (tst < 1 || Slot(p, tst - 1, poi) < |rows|)
    ensures |r| == Max0(tst)
    ensures forall i :: 0 <= i < Max0(tst) ==> 0 <= Slot(p, i, poi) < |rows| && r[i] == rows[Slot(p, i, poi)].y
  {
    assert forall i :: 0 <= i < Max0(tst) ==> 0 <= Slot(p, i, poi) < |rows| by {
      forall i | 0 <= i < Max0(tst) ensures 0 <= Slot(p, i, poi) < |rows| {
        SlotOrder(p, i, tst - 1, poi);
      }
    }
    seq(Max0(tst), i requires 0 <= i < Max0(tst) => rows[Slot(p, i, poi)].y)
  }

  /** Lines 105-131: the arrows along a trajectory, arrow i from position i to position i + 1. */
  function Hops(xs: seq<int>, ys: seq<int>, colour: Colour): (r: seq<Arrow>)
    requires |xs| == |ys|
    ensures |r| == Max0(|xs| - 1)
  {
    seq(Max0(|xs| - 1), i requires 0 <= i < Max0(|xs| - 1) => Arrow(xs[i], ys[i], xs[i + 1], ys[i + 1], colour))
  }

  /** Line 145: `p{p}` at the first position, the empty text elsewhere. */
  function Texts(n: nat, p: int): (r: seq<Text>)
    ensures |r| == n
    ensures forall i :: 0 <= i < n ==> (r[i] == PointName(p) <==> i == 0) && (r[i] == NoText <==> i != 0)
  {
    seq(n, i requires 0 <= i < n => if i == 0 then PointName(p) else NoText)
  }

  /** The arrows along point p's trajectory are the segments between its consecutive timestamps. */
  lemma HopsAreSegments(rows: seq<Sample>, poi: int, tst: int, colours: seq<Colour>, p: int)
    requires 0 <= p < poi && tst >= 2 && Slot(p, tst - 1, poi) < |rows| && colours != []
    ensures Hops(TrackX(rows, poi, tst, p), TrackY(rows, poi, tst, p), colours[p % |colours|]) == PointArrows(rows, poi, colours, p, tst - 1)
  {
    var h := Hops(TrackX(rows, poi, tst, p), TrackY(rows, poi, tst, p), colours[p % |colours|]);
    var a := PointArrows(rows, poi, colours, p, tst - 1);
    forall i | 0 <= i < tst - 1 ensures h[i] == a[i] {
      assert Slot(p, i + 1, poi) < |rows|;
    }
  }

  /** The two traces of point p. */
  function PointTraces(rows: seq<Sample>, poi: int, tst: int, p: int): (r: seq<Trace>)
    requires 0 <= p < poi && (tst < 1 || Slot(p, tst - 1, poi) < |rows|)
  {
    var colour, legend := CourtColours(poi)[p % poi], CourtLabels(poi)[p % poi];
    var xs, ys := TrackX(rows, poi, tst, p), TrackY(rows, poi, tst, p);
    [Path(xs, ys, colour, legend), Positions(xs, ys, colour, Texts(|xs|, p), legend)]
  }

  /** The traces of the first n points, point after point. */
  function Traces(rows: seq<Sample>, poi: int, tst: int, n: nat): (r: seq<Trace>)
    requires n <= poi && (n == 0 || tst < 1 || Slot(n - 1, tst - 1, poi) < |rows|)
    ensures |r| == 2 * n
  {
    if n == 0 then []
    else
      assert n - 1 == 0 || tst < 1 || Slot(n - 2, tst - 1, poi) < |rows|;
      Traces(rows, poi, tst, n - 1) + PointTraces(rows, poi, tst, n - 1)
  }

  /** The single-timestamp markers of the first n points. */
  function Markers(rows: seq<Sample>, poi: int, n: nat): (r: seq<Trace>)
    requires n <= poi && n <= |rows|
    ensures |r| == n
    ensures forall k :: 0 <= k < n ==> r[k] == Marker(rows[k].x, rows[k].y, CourtColours(poi)[k % poi], PointName(k), CourtLabels(poi)[k % poi])
  {
    seq(n, k requires 0 <= k < n => Marker(rows[k].x, rows[k].y, CourtColours(poi)[k % poi], PointName(k), CourtLabels(poi)[k % poi]))
  }

  /** The reads of lines 51-152 stay inside the rows: all `tst * poi` of them are there. */
  predicate Drawable(n: int, poi: int, tst: int) {
    poi < 1 || tst < 1 || tst * poi <= n
  }

  /** The exception lines 51-152 raise for a configuration of n rows: the first `iloc` past the rows. */
  function Failure(n: int, poi: int, tst: int): (e: Option<Error>)
    ensures e.None? <==> Drawable(n, poi, tst)
    ensures e.Some? ==> e.value.IndexOutOfRange? && e.value.index >= n
  {
    if Drawable(n, poi, tst) then None else Some(IndexOutOfRange(SlotFailure(n, poi, tst)))
  }

  /** What running the module on the rows raises: the exception of its first configuration that cannot be drawn. */
  function PlotFailure(rows: seq<Sample>, poi: int, tst: int): Option<Error> {
    FailureFrom(rows, Configurations(rows), n => Failure(n, poi, tst))
  }

  /** With one timestamp the markers of points 0 .. n - 1 are read, and the first missing one is row n. */
  lemma MarkerFailure(n: int, poi: int)
    requires 0 <= n < poi
    ensures Failure(n, poi, 1) == Some(IndexOutOfRange(n))
  {
    SlotFailureReached(n, poi, 1);
    var p := FirstIncomplete(n, poi, 0, 0);
    assert Slot(p, 0, poi) == p && Slot(n, 0, poi) == n;
  }

  /** The figure the loops of lines 51-152 produce. */
  function Expected(rows: seq<Sample>, config: int, poi: int, tst: int): Court
    requires Drawable(|rows|, poi, tst)
  {
    if poi < 1 then Court(config, [], [])
    else if tst == 1 then Court(config, Markers(rows, poi, poi), [])
    else if tst < 1 then Court(config, Traces(rows, poi, tst, poi), [])
    else
      LastSlot(poi, tst);
      Court(config, Traces(rows, poi, tst, poi), Arrows(rows, poi, tst, CourtColours(poi), poi))
  }

  /**
   * With several timestamps every point gets its line and its markers, each
   * trajectory has `tst` positions, there are `poi * (tst - 1)` arrows, and
   * the texts of point p are `p{p}` then blanks.
   */
  lemma ExpectedShape(rows: seq<Sample>, config: int, poi: int, tst: int, p: int)
    requires Drawable(|rows|, poi, tst) && tst >= 2 && 0 <= p < poi
    ensures var f := Expected(rows, config, poi, tst);
      && |f.traces| == 2 * poi && |f.annotations| == poi * (tst - 1)
      && f.traces[2 * p].Path? && f.traces[2 * p + 1].Positions?
      && |f.traces[2 * p].xs| == tst && |f.traces[2 * p + 1].texts| == tst
      && f.traces[2 * p].xs == TrackX(rows, poi, tst, p) && f.traces[2 * p].ys == TrackY(rows, poi, tst, p)
      && f.traces[2 * p + 1].texts == Texts(tst, p)
  {
    LastSlot(poi, tst);
    TracesAt(rows, poi, tst, poi, p);
  }

  /** Traces 2p and 2p + 1 are those of point p. */
  lemma {:induction false} TracesAt(rows: seq<Sample>, poi: int, tst: int, n: nat, p: int)
    requires n <= poi && tst >= 1 && (n == 0 || Slot(n - 1, tst - 1, poi) < |rows|)
    requires 0 <= p < n
    ensures Slot(p, tst - 1, poi) < |rows|
    ensures Traces(rows, poi, tst, n)[2 * p] == PointTraces(rows, poi, tst, p)[0]
    ensures Traces(rows, poi, tst, n)[2 * p + 1] == PointTraces(rows, poi, tst, p)[1]
  {
    if p < n - 1 {
      assert Slot(n - 2, tst - 1, poi) < |rows|;
      TracesAt(rows, poi, tst, n - 1, p);
    }
  }

  /** Lines 53-74: a marker per point; reading past the rows raises at the first missing one. */
  method DrawMarkers(rows: seq<Sample>, poi: int) returns (traces: seq<Trace>, err: Option<Error>)
    requires poi >= 1
    ensures err.None? <==> poi <= |rows|
    ensures err.Some? ==> err == Some(IndexOutOfRange(|rows|))
    ensures err.None? ==> traces == Markers(rows, poi, poi)
  {
    var colors, labels := CourtColours(poi), CourtLabels(poi);
    CourtPalettes(poi, 0);
    traces := [];
    err := None;
    var k := 0;
    while k < poi
      invariant 0 <= k <= poi && k <= |rows|
      invariant traces == Markers(rows, poi, k)
    {
      if k >= |rows| {
        err := Some(IndexOutOfRange(k));
        return;
      }
      traces := traces + [Marker(rows[k].x, rows[k].y, colors[k % |colors|], PointName(k), labels[k % |labels|])];
      k := k + 1;
    }
  }

  /** Lines 78-85: point p's positions at every timestamp; reading past the rows raises. */
  method Trajectory(rows: seq<Sample>, poi: int, tst: int, p: int) returns (xs: seq<int>, ys: seq<int>, err: Option<Error>)
    requires 0 <= p < poi
    ensures err.None? <==> tst < 1 || Slot(p, tst - 1, poi) < |rows|
    ensures err.Some? ==> tst >= 1 && err == Some(IndexOutOfRange(Slot(p, FirstMissing(|rows|, poi, p, 0, tst - 1), poi)))
    ensures err.None? ==> xs == TrackX(rows, poi, tst, p) && ys == TrackY(rows, poi, tst, p)
  {
    xs, ys := [], [];
    err := None;
    var i := 0;
    while i < tst
      invariant 0 <= i <= Max0(tst)
      invariant i > 0 ==> Slot(p, i - 1, poi) < |rows|
      invariant |xs| == |ys| == i
      invariant forall j :: 0 <= j < i ==> 0 <= Slot(p, j, poi) < |rows| && xs[j] == rows[Slot(p, j, poi)].x && ys[j] == rows[Slot(p, j, poi)].y
      invariant tst >= 1 ==> FirstMissing(|rows|, poi, p, 0, tst - 1) == FirstMissing(|rows|, poi, p, i, tst - 1)
    {
      var idx := Slot(p, i, poi);
      SlotOrder(p, 0, i, poi);
      if idx >= |rows| {
        if tst >= 1 {
          SlotOrder(p, i, tst - 1, poi);
        }
        err := Some(IndexOutOfRange(idx));
        return;
      }
      xs := xs + [rows[idx].x];
      ys := ys + [rows[idx].y];
      i := i + 1;
    }
  }

  /** Lines 105-131: one arrow annotation per pair of consecutive positions. */
  method AddArrows(xs: seq<int>, ys: seq<int>, colour: Colour, annotations: seq<Arrow>) returns (annotations': seq<Arrow>)
    requires |xs| == |ys|
    ensures annotations' == annotations + Hops(xs, ys, colour)
  {
    annotations' := annotations;
    var i := 0;
    while i < |xs| - 1
      invariant 0 <= i <= Max0(|xs| - 1)
      invariant annotations' == annotations + Hops(xs, ys, colour)[..i]
    {
      annotations' := annotations' + [Arrow(xs[i], ys[i], xs[i + 1], ys[i + 1], colour)];
      i := i + 1;
      assert Hops(xs, ys, colour)[..i] == Hops(xs, ys, colour)[..i - 1] + [Hops(xs, ys, colour)[i - 1]];
    }
    assert Hops(xs, ys, colour)[..i] == Hops(xs, ys, colour);
  }

  /** Lines 78-152 for point p: its trajectory line, its arrows and its markers. */
  method DrawPoint(rows: seq<Sample>, poi: int, tst: int, p: int, traces: seq<Trace>, annotations: seq<Arrow>)
    returns (traces': seq<Trace>, annotations': seq<Arrow>, err: Option<Error>)
    requires 0 <= p < poi && tst != 1
    ensures err.None? <==> tst < 1 || Slot(p, tst - 1, poi) < |rows|
    ensures err.Some? ==> tst >= 1 && err == Some(IndexOutOfRange(Slot(p, FirstMissing(|rows|, poi, p, 0, tst - 1), poi)))
    ensures err.None? ==> (traces' == traces + PointTraces(rows, poi, tst, p)
      && annotations' == annotations + (if tst >= 2 then PointArrows(rows, poi, CourtColours(poi), p, tst - 1) else []))
  {
    var colors, labels := CourtColours(poi), CourtLabels(poi);
    CourtPalettes(poi, p);
    traces', annotations' := traces, annotations;
    var xs, ys;
    xs, ys, err := Trajectory(rows, poi, tst, p);
    if err.Some? {
      return;
    }
    var colour, legend := colors[p % |colors|], labels[p % |labels|];
    traces' := traces' + [Path(xs, ys, colour, legend)];
    annotations' := AddArrows(xs, ys, colour, annotations');
    if tst >= 2 {
      HopsAreSegments(rows, poi, tst, colors, p);
    }
    traces' := traces' + [Positions(xs, ys, colour, Texts(|xs|, p), legend)];
  }

  /** The traces and arrows of the first p points are drawn. */
  predicate Drawn(rows: seq<Sample>, poi: int, tst: int, p: int, traces: seq<Trace>, annotations: seq<Arrow>)
    requires 0 <= p <= poi && poi >= 1
  {
    CourtPalettes(poi, 0);
    && (p == 0 || tst < 1 || Slot(p - 1, tst - 1, poi) < |rows|)
    && traces == Traces(rows, poi, tst, p)
    && annotations == (if tst >= 2 then Arrows(rows, poi, tst, CourtColours(poi), p) else [])
  }

  /** Drawing point p after the first p points draws the first p + 1. */
  lemma DrawnSnoc(rows: seq<Sample>, poi: int, tst: int, p: int, traces: seq<Trace>, annotations: seq<Arrow>)
    requires 0 <= p < poi && Drawn(rows, poi, tst, p, traces, annotations)
    requires tst < 1 || Slot(p, tst - 1, poi) < |rows|
    ensures Drawn(rows, poi, tst, p + 1, traces + PointTraces(rows, poi, tst, p),
                  annotations + (if tst >= 2 then PointArrows(rows, poi, CourtColours(poi), p, tst - 1) else []))
  {
    if tst >= 2 {
      ArrowsSnoc(rows, poi, tst, CourtColours(poi), p);
    }
  }

  /** One iteration of lines 77-152: point p after the first p points, or the exception that ends the loop. */
  method DrawNextPoint(rows: seq<Sample>, poi: int, tst: int, p: int, traces: seq<Trace>, annotations: seq<Arrow>)
    returns (traces': seq<Trace>, annotations': seq<Arrow>, err: Option<Error>)
    requires 0 <= p < poi && tst != 1 && Drawn(rows, poi, tst, p, traces, annotations)
    requires tst >= 1 ==> FirstIncomplete(|rows|, poi, 0, tst - 1) == FirstIncomplete(|rows|, poi, p, tst - 1)
    ensures err.Some? ==> err == Failure(|rows|, poi, tst)
    ensures err.None? ==> Drawn(rows, poi, tst, p + 1, traces', annotations')
    ensures err.None? && tst >= 1 ==> FirstIncomplete(|rows|, poi, 0, tst - 1) == FirstIncomplete(|rows|, poi, p + 1, tst - 1)
  {
    traces', annotations', err := DrawPoint(rows, poi, tst, p, traces, annotations);
    if err.Some? {
      SlotFailureAt(|rows|, poi, tst, p);
      return;
    }
    DrawnSnoc(rows, poi, tst, p, traces, annotations);
    if tst >= 1 {
      FirstIncompleteStep(|rows|, poi, p, tst - 1);
    }
  }

  /** Lines 77-152: every point in turn, stopping at the first read past the rows. */
  method DrawTrajectories(rows: seq<Sample>, poi: int, tst: int) returns (traces: seq<Trace>, annotations: seq<Arrow>, err: Option<Error>)
    requires poi >= 1 && tst != 1
    ensures err == Failure(|rows|, poi, tst)
    ensures err.None? ==> Drawn(rows, poi, tst, poi, traces, annotations)
  {
    traces, annotations := [], [];
    err := None;
    var p := 0;
    while p < poi
      invariant 0 <= p <= poi && err.None?
      invariant Drawn(rows, poi, tst, p, traces, annotations)
      invariant tst >= 1 ==> FirstIncomplete(|rows|, poi, 0, tst - 1) == FirstIncomplete(|rows|, poi, p, tst - 1)
    {
      traces, annotations, err := DrawNextPoint(rows, poi, tst, p, traces, annotations);
      if err.Some? {
        return;
      }
      p := p + 1;
    }
    NoFailure(|rows|, poi, tst);
  }

  /** A point whose rows are all there is passed over by the search for the first incomplete one. */
  lemma FirstIncompleteStep(n: int, poi: int, p: int, last: int)
    requires 0 <= p < poi && Slot(p, last, poi) < n
    ensures FirstIncomplete(n, poi, p, last) == FirstIncomplete(n, poi, p + 1, last)
  {
  }

  /** When the last point's last row is there, nothing fails. */
  lemma NoFailure(n: int, poi: int, tst: int)
    requires poi >= 1 && (tst < 1 || Slot(poi - 1, tst - 1, poi) < n)
    ensures Failure(n, poi, tst) == None
  {
    if tst >= 1 {
      LastSlot(poi, tst);
    }
  }

  /** Lines 50-152 for the rows of one configuration. */
  method DrawConfiguration(rows: seq<Sample>, config: int, poi: int, tst: int) returns (court: Court, err: Option<Error>)
    ensures err == Failure(|rows|, poi, tst)
    ensures err.None? ==> court == Expected(rows, config, poi, tst)
  {
    court := Court(config, [], []);
    err := None;
    if poi < 1 {
      // `range(av.poi)` is empty: nothing is drawn
      return;
    }
    if tst == 1 {
      var traces;
      traces, err := DrawMarkers(rows, poi);
      court := court.(traces := traces);
      if err.Some? {
        MarkerFailure(|rows|, poi);
      }
    } else {
      var traces, annotations;
      traces, annotations, err := DrawTrajectories(rows, poi, tst);
      court := Court(config, traces, annotations);
    }
  }

  /** Lines 40-170: one court per configuration, in order of first appearance, up to the first that cannot be drawn. */
  method DrawAll(rows: seq<Sample>, poi: int, tst: int) returns (courts: seq<Court>, err: Option<Error>)
    ensures var cs := Configurations(rows);
      && (err.None? <==> forall c :: c in cs ==> Drawable(|RowsOf(rows, c)|, poi, tst))
      && |courts| <= |cs|
      && (forall n :: 0 <= n < |courts| ==> Drawable(|RowsOf(rows, cs[n])|, poi, tst) && courts[n] == Expected(RowsOf(rows, cs[n]), cs[n], poi, tst))
      && (err.None? ==> |courts| == |cs|)
      && (err.Some? ==> |courts| < |cs| && !Drawable(|RowsOf(rows, cs[|courts|])|, poi, tst))
      && err == PlotFailure(rows, poi, tst)
  {
    var cs := Configurations(rows);
    ghost var fail := k => Failure(k, poi, tst);
    courts := [];
    err := None;
    var n := 0;
    while n < |cs|
      invariant 0 <= n <= |cs| && |courts| == n && err.None?
      invariant forall m :: 0 <= m < n ==> Drawable(|RowsOf(rows, cs[m])|, poi, tst) && courts[m] == Expected(RowsOf(rows, cs[m]), cs[m], poi, tst)
    {
      var court;
      court, err := DrawConfiguration(RowsOf(rows, cs[n]), cs[n], poi, tst);
      if err.Some? {
        FailureFromAt(rows, cs, fail, n);
        assert cs[n] in cs;
        return;
      }
      courts := courts + [court];
      n := n + 1;
    }
    assert forall c :: c in cs ==> exists m :: 0 <= m < |cs| && cs[m] == c;
  }
}
