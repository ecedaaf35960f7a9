/** The stacked columns of `ColumnChart` in `frontend/components/analytics/charts.tsx`; y grows downwards. */
module StackedColumns {
  import opened AxisTicks
  import opened JsMath
  import opened Sequences

  const MARGIN_TOP: real := 12.0

  /** The drawn rectangle from `upper` down to `upper + h`. */
  datatype Segment = Segment(upper: real, h: real)

  /** The plot: its height, the value of its top tick and the gap left between segments. */
  datatype Plot = Plot(height: real, top: real, gap: real) {
    ghost predicate Valid() {
      height > 0.0 && top > 0.0 && gap >= 0.0
    }

    /** A height in pixels that is to the plot as the value is to the top tick. */
    predicate IsHeight(pixels: real, v: real) {
      pixels * top == v * height
    }

    function Y(v: real): real
      requires top > 0.0
    {
      MARGIN_TOP + height - v / top * height
    }
  }

  function Total(vs: seq<real>): real {
    if vs == [] then 0.0 else Total(vs[..|vs| - 1]) + vs[|vs| - 1]
  }

  /** The gap below segment `k`: none below the first. */
  function GapBelow(p: Plot, k: nat): real {
    if k > 0 then p.gap else 0.0
  }

  function DrawSegment(p: Plot, base: real, v: real, k: nat): Segment
    requires p.top > 0.0
  {
    var y0, y1 := p.Y(base), p.Y(base + v);
    var h := MaxReal(y0 - y1 - GapBelow(p, k), 0.5);
    Segment(y0 - GapBelow(p, k) - h, h)
  }

  /** The values of one column that are drawn. */
  function Visible(vs: seq<real>): seq<real> {
    if vs == [] then [] else (if vs[0] > 0.0 then [vs[0]] else []) + Visible(vs[1..])
  }

  ghost predicate AllPositive(vs: seq<real>) {
    forall k :: 0 <= k < |vs| ==> vs[k] > 0.0
  }

  lemma NextBase(vs: seq<real>, k: nat)
    requires k < |vs|
    ensures Total(vs[..k + 1]) == Total(vs[..k]) + vs[k]
  {
    assert vs[..k + 1][..k] == vs[..k];
  }

  /** The loop over the visible series, with `base` running along. */
  method DrawColumn(p: Plot, values: seq<real>) returns (segments: seq<Segment>)
    requires p.top > 0.0
    ensures var vs := Visible(values);
      && |segments| == |vs|
      && forall k :: 0 <= k < |vs| ==> segments[k] == DrawSegment(p, Total(vs[..k]), vs[k], k)
  {
    hide DrawSegment, Visible;
    var visible := Visible(values);
    var base := 0.0;
    segments := [];
    assert visible[..0] == [];
    for k := 0 to |visible|
      invariant |segments| == k && base == Total(visible[..k])
      invariant forall j :: 0 <= j < k ==> segments[j] == DrawSegment(p, Total(visible[..j]), visible[j], j)
    {
      segments := segments + [DrawSegment(p, base, visible[k], k)];
      NextBase(visible, k);
      base := base + visible[k];
    }
  }

  lemma {:induction false} TotalOf(v: real, vs: seq<real>)
    ensures Total([v] + vs) == v + Total(vs)
  {
    var s := [v] + vs;
    if vs == [] {
      assert s[..0] == [];
    } else {
      TotalOf(v, vs[..|vs| - 1]);
      assert s[..|s| - 1] == [v] + vs[..|vs| - 1];
    }
  }

  /** Leaving out the zeros does not change the height of the column. */
  lemma {:induction false} VisibleKeepsTotal(vs: seq<real>)
    requires forall k :: 0 <= k < |vs| ==> vs[k] >= 0.0
    ensures AllPositive(Visible(vs)) && Total(Visible(vs)) == Total(vs)
  {
    if vs != [] {
      VisibleKeepsTotal(vs[1..]);
      TotalOf(vs[0], vs[1..]);
      TotalOf(vs[0], Visible(vs[1..]));
      assert vs == [vs[0]] + vs[1..];
      assert Visible(vs) == if vs[0] > 0.0 then [vs[0]] + Visible(vs[1..]) else Visible(vs[1..]);
    }
  }

  lemma {:induction false} VisibleConcat(a: seq<real>, b: seq<real>)
    ensures Visible(a + b) == Visible(a) + Visible(b)
  {
    if a == [] {
      assert a + b == b;
    } else {
      hide Visible;
      VisibleConcat(a[1..], b);
      assert a == [a[0]] + a[1..] && a + b == [a[0]] + (a[1..] + b);
      VisibleFirst(a[0], a[1..]);
      VisibleFirst(a[0], a[1..] + b);
      Regroup(if a[0] > 0.0 then [a[0]] else [], Visible(a[1..]), Visible(b), []);
    }
  }

  /** The values that are drawn are the positive ones, in their order. */
  lemma VisibleFilters(a: seq<real>, v: real, b: seq<real>)
    ensures Visible([]) == []
    ensures Visible(a + [v] + b) == Visible(a) + (if v > 0.0 then [v] else []) + Visible(b)
  {
    VisibleConcat(a + [v], b);
    VisibleConcat(a, [v]);
    VisibleFirst(v, []);
    assert [v] + [] == [v];
  }

  lemma VisibleFirst(v: real, vs: seq<real>)
    ensures Visible([v] + vs) == (if v > 0.0 then [v] else []) + Visible(vs)
  {
    assert ([v] + vs)[1..] == vs;
  }

  /** The total of a column, value by value. */
  lemma TotalAdds(v: real, vs: seq<real>)
    ensures Total([]) == 0.0 && Total([v] + vs) == v + Total(vs)
  {
    TotalOf(v, vs);
  }

  // ----- Geometry -----

  /** The scale is linear: 0 is the lower end of the plot, and heights are to the plot as values are to the top. */
  lemma {:induction false} ScaleIsLinear(p: Plot, a: real, b: real)
    requires p.Valid()
    ensures p.Y(0.0) == 12.0 + p.height && p.Y(p.top) == 12.0
    ensures p.IsHeight(p.Y(a) - p.Y(b), b - a)
  {
    var f := p.height / p.top;
    assert f * p.top == p.height;
    assert a / p.top * p.height == a * f && b / p.top * p.height == b * f;
    assert (b * f - a * f) * p.top == (b - a) * (f * p.top);
  }

  /** With room for it, a segment is as high as its value, less the gap below all but the first. */
  lemma {:induction false} HeightIsValue(p: Plot, vs: seq<real>, k: nat)
    requires p.Valid() && k < |vs| && Tall(p, vs, k)
    ensures p.IsHeight(DrawSegment(p, Total(vs[..k]), vs[k], k).h + (if k > 0 then p.gap else 0.0), vs[k])
  {
    NextBase(vs, k);
    ScaleIsLinear(p, Total(vs[..k]), Total(vs[..k + 1]));
  }

  /** Whether a segment has that room, in its value: the height of the value is at least the gap and half a pixel. */
  lemma {:induction false} TallExactly(p: Plot, vs: seq<real>, k: nat)
    requires p.Valid() && k < |vs|
    ensures Tall(p, vs, k) <==> vs[k] * p.height >= ((if k > 0 then p.gap else 0.0) + 0.5) * p.top
  {
    NextBase(vs, k);
    var d := p.Y(Total(vs[..k])) - p.Y(Total(vs[..k + 1]));
    var room := GapBelow(p, k) + 0.5;
    ScaleIsLinear(p, Total(vs[..k]), Total(vs[..k + 1]));
    hide Plot.Y;
    if d >= room { assert d * p.top >= room * p.top; }
    if d < room { assert d * p.top < room * p.top; }
  }

  /** The segment has room for the gap below it and at least half a pixel. */
  predicate Tall(p: Plot, vs: seq<real>, k: nat)
    requires p.top > 0.0 && k < |vs|
  {
    p.Y(Total(vs[..k])) - p.Y(Total(vs[..k + 1])) >= GapBelow(p, k) + 0.5
  }

  function Bottom(s: Segment): real {
    s.upper + s.h
  }

  /**
   A segment stands on its base, a gap above it; its upper edge is at the height of the running total exactly
   when it is tall, and above that otherwise.
  */
  lemma SegmentEdges(p: Plot, vs: seq<real>, k: nat)
    requires p.Valid() && k < |vs|
    ensures var s := DrawSegment(p, Total(vs[..k]), vs[k], k);
      && Bottom(s) == p.Y(Total(vs[..k])) - GapBelow(p, k)
      && (s.upper == p.Y(Total(vs[..k + 1])) <==> Tall(p, vs, k))
      && (!Tall(p, vs, k) ==> s.upper < p.Y(Total(vs[..k + 1])))
      && s.h >= 0.5
  {
    NextBase(vs, k);
  }

  /** Between two neighbours the gap is exact if and only if the lower one is tall. */
  lemma GapIsExactlyKept(p: Plot, vs: seq<real>, k: nat)
    requires p.Valid() && k + 1 < |vs|
    ensures var lower := DrawSegment(p, Total(vs[..k]), vs[k], k);
      var above := DrawSegment(p, Total(vs[..k + 1]), vs[k + 1], k + 1);
      && (Bottom(above) == lower.upper - p.gap <==> Tall(p, vs, k))
      && (!Tall(p, vs, k) ==> Bottom(above) > lower.upper - p.gap)
  {
    SegmentEdges(p, vs, k);
    SegmentEdges(p, vs, k + 1);
  }

  /** Two neighbours overlap exactly when the lower one lacks room for its gap and half a pixel by more than a gap. */
  lemma OverlapExactly(p: Plot, vs: seq<real>, k: nat)
    requires p.Valid() && k + 1 < |vs|
    ensures var lower := DrawSegment(p, Total(vs[..k]), vs[k], k);
      var above := DrawSegment(p, Total(vs[..k + 1]), vs[k + 1], k + 1);
      Bottom(above) > lower.upper
      <==> p.Y(Total(vs[..k])) - p.Y(Total(vs[..k + 1])) < GapBelow(p, k) + 0.5 - p.gap
  {
    NextBase(vs, k);
    SegmentEdges(p, vs, k + 1);
  }

  lemma {:induction false} TotalGrows(vs: seq<real>, j: nat, k: nat)
    requires AllPositive(vs) && j <= k <= |vs|
    ensures 0.0 <= Total(vs[..j]) <= Total(vs[..k])
    decreases k
  {
    if k > 0 {
      assert vs[..k][..k - 1] == vs[..k - 1];
      if j < k {
        TotalGrows(vs, j, k - 1);
      } else {
        TotalGrows(vs, k - 1, k - 1);
      }
    }
  }

  lemma HigherIsUp(p: Plot, a: real, b: real)
    requires p.Valid() && a <= b
    ensures p.Y(b) <= p.Y(a)
  {
    var f := p.height / p.top;
    assert f > 0.0;
    assert a / p.top * p.height == a * f && b / p.top * p.height == b * f;
    assert a * f <= b * f;
  }

  lemma SegmentIsInside(p: Plot, vs: seq<real>, k: nat)
    requires p.Valid() && AllPositive(vs) && Total(vs) <= p.top && k < |vs| && Tall(p, vs, k)
    ensures var s := DrawSegment(p, Total(vs[..k]), vs[k], k);
      MARGIN_TOP <= s.upper < Bottom(s) <= MARGIN_TOP + p.height
  {
    hide DrawSegment, Tall, Plot.Y, Total;
    assert vs[..|vs|] == vs;
    PlotEdges(p);
    SegmentEdges(p, vs, k);
    TotalGrows(vs, 0, k);
    TotalGrows(vs, k + 1, |vs|);
    HigherIsUp(p, 0.0, Total(vs[..k]));
    HigherIsUp(p, Total(vs[..k + 1]), p.top);
  }

  lemma SegmentsAreApart(p: Plot, vs: seq<real>, j: nat, k: nat)
    requires p.Valid() && AllPositive(vs) && j < k < |vs| && Tall(p, vs, j)
    ensures Bottom(DrawSegment(p, Total(vs[..k]), vs[k], k)) <= DrawSegment(p, Total(vs[..j]), vs[j], j).upper - p.gap
  {
    hide DrawSegment, Tall, Plot.Y, Total;
    SegmentEdges(p, vs, j);
    SegmentEdges(p, vs, k);
    TotalGrows(vs, j + 1, k);
    HigherIsUp(p, Total(vs[..j + 1]), Total(vs[..k]));
  }

  /**
   With the total under the top tick and every segment tall, the column fills the plot up to its total, and
   nothing overlaps.
  */
  lemma {:induction false} ColumnFits(p: Plot, vs: seq<real>)
    requires p.Valid() && AllPositive(vs) && Total(vs) <= p.top
    requires forall k :: 0 <= k < |vs| ==> Tall(p, vs, k)
    ensures forall k :: 0 <= k < |vs| ==>
      var s := DrawSegment(p, Total(vs[..k]), vs[k], k);
      MARGIN_TOP <= s.upper < Bottom(s) <= MARGIN_TOP + p.height
    ensures forall j, k :: 0 <= j < k < |vs| ==>
      Bottom(DrawSegment(p, Total(vs[..k]), vs[k], k)) <= DrawSegment(p, Total(vs[..j]), vs[j], j).upper - p.gap
    ensures vs != [] ==> DrawSegment(p, Total(vs[..|vs| - 1]), vs[|vs| - 1], |vs| - 1).upper == p.Y(Total(vs))
  {
    hide DrawSegment, Tall, Plot.Y, Total, Bottom;
    forall k | 0 <= k < |vs| ensures
      var s := DrawSegment(p, Total(vs[..k]), vs[k], k);
      MARGIN_TOP <= s.upper < Bottom(s) <= MARGIN_TOP + p.height
    {
      SegmentIsInside(p, vs, k);
    }
    forall j, k | 0 <= j < k < |vs| ensures
      Bottom(DrawSegment(p, Total(vs[..k]), vs[k], k)) <= DrawSegment(p, Total(vs[..j]), vs[j], j).upper - p.gap
    {
      SegmentsAreApart(p, vs, j, k);
    }
    if vs != [] {
      assert vs[..|vs|] == vs;
      SegmentEdges(p, vs, |vs| - 1);
    }
  }

  lemma PlotEdges(p: Plot)
    requires p.Valid()
    ensures p.Y(0.0) == MARGIN_TOP + p.height && p.Y(p.top) == MARGIN_TOP
  {
  }

  lemma SegmentStaysInside(p: Plot, vs: seq<real>, k: nat)
    requires p.Valid() && AllPositive(vs) && Total(vs) <= p.top && k < |vs|
    ensures DrawSegment(p, Total(vs[..k]), vs[k], k).upper >= MARGIN_TOP
      <==> p.Y(Total(vs[..k])) - GapBelow(p, k) - 0.5 >= MARGIN_TOP
  {
    assert vs[..|vs|] == vs;
    NextBase(vs, k);
    TotalGrows(vs, k + 1, |vs|);
    HigherIsUp(p, Total(vs[..k + 1]), p.top);
    PlotEdges(p);
  }

  ghost predicate ColumnInside(p: Plot, vs: seq<real>)
    requires p.Valid()
  {
    forall k :: 0 <= k < |vs| ==> DrawSegment(p, Total(vs[..k]), vs[k], k).upper >= MARGIN_TOP
  }

  /**
   A whole column stays below the upper end of the plot exactly when there is room for the gap and half a pixel
   over the base of its last segment.
  */
  lemma {:induction false} StaysInsideExactly(p: Plot, vs: seq<real>)
    requires p.Valid() && AllPositive(vs) && vs != [] && Total(vs) <= p.top
    ensures ColumnInside(p, vs)
      <==> p.Y(Total(vs[..|vs| - 1])) - GapBelow(p, |vs| - 1) - 0.5 >= MARGIN_TOP
  {
    hide DrawSegment, Plot.Y, Total;
    var last := |vs| - 1;
    SegmentStaysInside(p, vs, last);
    if p.Y(Total(vs[..last])) - GapBelow(p, last) - 0.5 >= MARGIN_TOP {
      forall k | 0 <= k < |vs| ensures DrawSegment(p, Total(vs[..k]), vs[k], k).upper >= MARGIN_TOP {
        SegmentStaysInside(p, vs, k);
        TotalGrows(vs, k, last);
        HigherIsUp(p, Total(vs[..k]), Total(vs[..last]));
      }
    }
  }

  /**
   A thin last segment of a full column does leave it: 99.5 and 0.5 under a top tick of 100, in the default
   height.
  */
  lemma {:induction false} ThinTopLeavesThePlot()
    ensures var p, vs := Plot(184.0, 100.0, 2.0), [99.5, 0.5];
      p.Valid() && AllPositive(vs) && Total(vs) == p.top
      && DrawSegment(p, Total(vs[..1]), vs[1], 1).upper < MARGIN_TOP
  {
    var vs := [99.5, 0.5];
    assert vs[..1] == [99.5] && vs[..1][..0] == [];
  }

  // ----- The axis -----

  /** The value of each column, `Math.max(...totals, 0)` and the height of the axis. */
  function Totals(columns: seq<seq<real>>): seq<real> {
    seq(|columns|, i requires 0 <= i < |columns| => Total(columns[i]))
  }

  function Largest(totals: seq<real>): real {
    if totals == [] then 0.0 else MaxReal(Largest(totals[..|totals| - 1]), totals[|totals| - 1])
  }

  lemma {:induction false} LargestIsLeastBound(totals: seq<real>)
    ensures forall i :: 0 <= i < |totals| ==> totals[i] <= Largest(totals)
    ensures Largest(totals) == 0.0 || Largest(totals) in totals
  {
    if totals != [] {
      LargestIsLeastBound(totals[..|totals| - 1]);
    }
  }

  /** The ticks of the chart and the value of the last one, the top of the plot. */
  method ChartAxis(columns: seq<seq<real>>, ghost last: nat) returns (ticks: seq<real>, top: real)
    requires var max := Largest(Totals(columns)); max > 0.0 ==> StopsAt(max, last)
    ensures top > 0.0
    ensures forall i :: 0 <= i < |columns| ==> Total(columns[i]) <= top
    ensures ticks != [] && top == ticks[|ticks| - 1]
    ensures ticks == if Largest(Totals(columns)) <= 0.0 then [0.0, 1.0]
      else TicksUpTo(StepSize(Largest(Totals(columns))), last)
  {
    var totals := Totals(columns);
    var max := Largest(totals);
    LargestIsLeastBound(totals);
    ticks := NiceTicks(max, last);
    hide StepSize, Tick, Largest;
    if max > 0.0 {
      TickAt(StepSize(max), last, last);
    }
    top := ticks[|ticks| - 1];
    assert forall i :: 0 <= i < |columns| ==> Total(columns[i]) == totals[i];
  }

  /**
   With the axis made for the columns, every column fits under its top, and the tick before it is too low for
   one of them.
  */
  lemma {:induction false} TopTickCovers(columns: seq<seq<real>>, n: nat, i: nat)
    requires i < |columns| && Largest(Totals(columns)) > 0.0 && StopsAt(Largest(Totals(columns)), n)
    ensures var ticks := TicksUpTo(StepSize(Largest(Totals(columns))), n);
      |ticks| == n + 1 && Total(columns[i]) <= ticks[n]
    ensures n > 0 ==> exists j ::
      0 <= j < |columns| && TicksUpTo(StepSize(Largest(Totals(columns))), n)[n - 1] < Total(columns[j])
  {
    var totals := Totals(columns);
    var max := Largest(totals);
    LargestIsLeastBound(totals);
    hide StepSize, Tick, Largest;
    TickAt(StepSize(max), n, n);
    assert Total(columns[i]) == totals[i];
    if n > 0 {
      TickAt(StepSize(max), n, n - 1);
      var j :| 0 <= j < |totals| && totals[j] == max;
      assert Total(columns[j]) == max;
    }
  }

  // ----- A whole chart -----

  ghost predicate AreInside(p: Plot, segments: seq<Segment>) {
    forall k :: 0 <= k < |segments| ==>
      MARGIN_TOP <= segments[k].upper < Bottom(segments[k]) <= MARGIN_TOP + p.height
  }

  ghost predicate AreApart(p: Plot, segments: seq<Segment>) {
    forall j, k :: 0 <= j < k < |segments| ==> Bottom(segments[k]) <= segments[j].upper - p.gap
  }

  /** Every segment is as high as its value, less the gap below all but the first. */
  ghost predicate HaveHeights(p: Plot, vs: seq<real>, segments: seq<Segment>) {
    && |segments| == |vs|
    && forall k :: 0 <= k < |vs| ==> p.IsHeight(segments[k].h + (if k > 0 then p.gap else 0.0), vs[k])
  }

  /** The first segment stands on the axis, and the last one ends at the height of the total. */
  ghost predicate FillColumn(p: Plot, total: real, segments: seq<Segment>) {
    segments != [] ==>
      && Bottom(segments[0]) == MARGIN_TOP + p.height
      && p.IsHeight(MARGIN_TOP + p.height - segments[|segments| - 1].upper, total)
  }

  /**
   There is one segment for each positive value, in their order and as high as it; all are inside the plot and
   apart by the gap, the first one on the axis and the last one ending at the column's total.
  */
  ghost predicate Fits(p: Plot, values: seq<real>, segments: seq<Segment>) {
    && AreInside(p, segments) && AreApart(p, segments)
    && HaveHeights(p, Visible(values), segments) && FillColumn(p, Total(values), segments)
  }

  /** Every value is high enough for the gap below it and half a pixel. */
  ghost predicate AllTall(p: Plot, vs: seq<real>) {
    forall k :: 0 <= k < |vs| ==> vs[k] * p.height >= ((if k > 0 then p.gap else 0.0) + 0.5) * p.top
  }

  ghost predicate NoneNegative(values: seq<real>) {
    forall k :: 0 <= k < |values| ==> values[k] >= 0.0
  }

  lemma FirstStandsOnTheAxis(p: Plot, vs: seq<real>)
    requires p.Valid() && vs != []
    ensures Bottom(DrawSegment(p, Total(vs[..0]), vs[0], 0)) == MARGIN_TOP + p.height
  {
    SegmentEdges(p, vs, 0);
    PlotEdges(p);
    assert vs[..0] == [];
  }

  lemma AllAreTall(p: Plot, vs: seq<real>)
    requires p.Valid() && AllTall(p, vs)
    ensures forall k :: 0 <= k < |vs| ==> Tall(p, vs, k)
  {
    hide Tall;
    forall k | 0 <= k < |vs| ensures Tall(p, vs, k) {
      TallExactly(p, vs, k);
    }
  }

  ghost predicate AreDrawn(p: Plot, vs: seq<real>, segments: seq<Segment>)
    requires p.Valid()
  {
    && |segments| == |vs|
    && forall k :: 0 <= k < |vs| ==> segments[k] == DrawSegment(p, Total(vs[..k]), vs[k], k)
  }

  lemma HeightsAreValues(p: Plot, vs: seq<real>, segments: seq<Segment>)
    requires p.Valid() && AllTall(p, vs) && AreDrawn(p, vs, segments)
    ensures HaveHeights(p, vs, segments)
  {
    AllAreTall(p, vs);
    hide DrawSegment, Tall, Plot.Y, Plot.IsHeight, Total, AllTall;
    forall k | 0 <= k < |vs|
      ensures p.IsHeight(segments[k].h + (if k > 0 then p.gap else 0.0), vs[k])
    {
      HeightIsValue(p, vs, k);
    }
  }

  lemma EndsAreExact(p: Plot, vs: seq<real>, segments: seq<Segment>)
    requires p.Valid() && AllPositive(vs) && Total(vs) <= p.top && AllTall(p, vs)
    requires AreDrawn(p, vs, segments) && vs != []
    ensures FillColumn(p, Total(vs), segments)
  {
    AllAreTall(p, vs);
    hide DrawSegment, Tall, Plot.Y, Plot.IsHeight, Total, Bottom, AllTall;
    assert vs[..|vs|] == vs && Total(vs) - 0.0 == Total(vs);
    FirstStandsOnTheAxis(p, vs);
    SegmentEdges(p, vs, |vs| - 1);
    ScaleIsLinear(p, 0.0, Total(vs));
  }

  lemma SegmentsAreInside(p: Plot, vs: seq<real>, segments: seq<Segment>)
    requires p.Valid() && AllPositive(vs) && Total(vs) <= p.top && AllTall(p, vs) && AreDrawn(p, vs, segments)
    ensures AreInside(p, segments)
  {
    AllAreTall(p, vs);
    hide DrawSegment, Tall, Plot.Y, Total, Bottom, AllTall;
    forall k | 0 <= k < |segments|
      ensures MARGIN_TOP <= segments[k].upper < Bottom(segments[k]) <= MARGIN_TOP + p.height
    {
      SegmentIsInside(p, vs, k);
    }
  }

  lemma SegmentsAreSpaced(p: Plot, vs: seq<real>, segments: seq<Segment>)
    requires p.Valid() && AllPositive(vs) && AllTall(p, vs) && AreDrawn(p, vs, segments)
    ensures AreApart(p, segments)
  {
    AllAreTall(p, vs);
    hide DrawSegment, Tall, Plot.Y, Total, Bottom, AllTall;
    forall j, k | 0 <= j < k < |segments| ensures Bottom(segments[k]) <= segments[j].upper - p.gap {
      SegmentsAreApart(p, vs, j, k);
    }
  }

  /** The segments drawn for a column, under the top made for all columns. */
  lemma DrawnColumnFits(p: Plot, values: seq<real>, segments: seq<Segment>)
    requires p.Valid() && NoneNegative(values) && Total(values) <= p.top && AllTall(p, Visible(values))
    requires AreDrawn(p, Visible(values), segments)
    ensures Fits(p, values, segments)
  {
    var vs := Visible(values);
    VisibleKeepsTotal(values);
    assert |segments| == |vs|;
    hide DrawSegment, Plot.Y, Plot.IsHeight, Total, Visible, Bottom, AllTall, AreDrawn;
    hide AreInside, AreApart, HaveHeights;
    SegmentsAreInside(p, vs, segments);
    SegmentsAreSpaced(p, vs, segments);
    HeightsAreValues(p, vs, segments);
    if vs != [] {
      EndsAreExact(p, vs, segments);
    }
  }

  /**
   The chart: the axis for the largest total, and every column drawn under its top. Every column of values that
   are not negative fits if its segments have room for the gap and half a pixel.
  */
  method DrawChart(columns: seq<seq<real>>, height: real, gap: real, ghost last: nat)
    returns (top: real, chart: seq<seq<Segment>>)
    requires height > 0.0 && gap >= 0.0
    requires var max := Largest(Totals(columns)); max > 0.0 ==> StopsAt(max, last)
    ensures top > 0.0 && |chart| == |columns|
    ensures var p := Plot(height, top, gap);
      forall i :: 0 <= i < |columns| && NoneNegative(columns[i]) && AllTall(p, Visible(columns[i])) ==>
        Fits(p, columns[i], chart[i])
  {
    hide StepSize, Largest, Tall, DrawSegment, Visible, Total, Fits, AllTall, NoneNegative;
    var ticks;
    ticks, top := ChartAxis(columns, last);
    var p := Plot(height, top, gap);
    chart := [];
    for i := 0 to |columns|
      invariant |chart| == i
      invariant forall j :: 0 <= j < i && NoneNegative(columns[j]) && AllTall(p, Visible(columns[j])) ==>
        Fits(p, columns[j], chart[j])
    {
      var segments := DrawColumn(p, columns[i]);
      assert NoneNegative(columns[i]) && AllTall(p, Visible(columns[i])) ==> Fits(p, columns[i], segments) by {
        if NoneNegative(columns[i]) && AllTall(p, Visible(columns[i])) {
          DrawnColumnFits(p, columns[i], segments);
        }
      }
      chart := chart + [segments];
    }
  }
}
