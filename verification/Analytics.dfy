/**
 The series arithmetic of `frontend/components/analytics/AnalyticsSection.tsx` and the heatmap scale of
 `charts.tsx`.
*/
module Analytics {
  import opened JsMath
  import opened Sequences

  function Total(vs: seq<int>): int {
    if vs == [] then 0 else Total(vs[..|vs| - 1]) + vs[|vs| - 1]
  }

  lemma {:induction false} TotalConcat(a: seq<int>, b: seq<int>)
    ensures Total(a + b) == Total(a) + Total(b)
  {
    if b == [] {
      assert a + b == a;
    } else {
      assert (a + b)[..|a + b| - 1] == a + b[..|b| - 1];
      TotalConcat(a, b[..|b| - 1]);
    }
  }

  /** The sum, value by value. */
  lemma TotalAdds(v: int, vs: seq<int>)
    ensures Total([]) == 0 && Total([v]) == v && Total([v] + vs) == v + Total(vs)
  {
    TotalConcat([v], vs);
    assert [v][..0] == [];
  }

  // ----- Sparklines -----

  /** Values per point: `Math.max(1, Math.ceil(length / 14))`. */
  function GroupSize(length: nat): nat {
    Max(1, (length + 13) / 14)
  }

  /** The sums of consecutive slices of `size` values; the last slice may be shorter. */
  function Groups(vals: seq<int>, size: nat): seq<int>
    requires size > 0
    decreases |vals|
  {
    if vals == [] then []
    else
      var end := Min(size, |vals|);
      [Total(vals[..end])] + Groups(vals[end..], size)
  }

  lemma NextGroup(vals: seq<int>, size: nat, i: nat)
    requires size > 0 && i < |vals|
    ensures var end := Min(i + size, |vals|);
      Groups(vals[i..], size) == [Total(vals[i..end])] + Groups(vals[end..], size)
  {
    hide Total;
    var end := Min(i + size, |vals|);
    assert vals[i..][..end - i] == vals[i..end] && vals[i..][end - i..] == vals[end..];
  }

  method Compress(vals: seq<int>) returns (out: seq<int>)
    ensures out == Groups(vals, GroupSize(|vals|))
  {
    var size := GroupSize(|vals|);
    assert size > 0;
    hide Groups, Total, GroupSize;
    out := [];
    var i := 0;
    ghost var rest := vals;
    while i < |vals|
      invariant rest == vals[Min(i, |vals|)..]
      invariant Groups(vals, size) == out + Groups(rest, size)
    {
      var end := Min(i + size, |vals|);
      var sum := SumSlice(vals[i..end]);
      NextGroup(vals, size, i);
      rest := vals[end..];
      Regroup(out, [sum], Groups(rest, size), []);
      out := out + [sum];
      i := i + size;
    }
    NoGroups(size);
  }

  lemma NoGroups(size: nat)
    requires size > 0
    ensures Groups([], size) == []
  {
  }

  /** No value is lost or counted twice. */
  lemma {:induction false} GroupsKeepTheTotal(vals: seq<int>, size: nat)
    requires size > 0
    ensures Total(Groups(vals, size)) == Total(vals)
    decreases |vals|
  {
    if vals != [] {
      var end := Min(size, |vals|);
      GroupsKeepTheTotal(vals[end..], size);
      TotalConcat([Total(vals[..end])], Groups(vals[end..], size));
      TotalConcat(vals[..end], vals[end..]);
      assert vals[..end] + vals[end..] == vals;
      assert Total([Total(vals[..end])]) == Total(vals[..end]);
    }
  }

  lemma FirstGroup(vals: seq<int>, size: nat)
    requires size > 0 && vals != []
    ensures var end := Min(size, |vals|);
      Groups(vals, size) == [Total(vals[..end])] + Groups(vals[end..], size)
  {
  }

  lemma OneGroupMore(n: nat, size: nat)
    ensures (n + 1) * size == n * size + size
  {
  }

  lemma {:induction false} GroupCount(vals: seq<int>, size: nat)
    requires size > 0
    ensures |vals| <= |Groups(vals, size)| * size < |vals| + size
    decreases |vals|
  {
    if vals != [] {
      var end := Min(size, |vals|);
      GroupCount(vals[end..], size);
      FirstGroup(vals, size);
      hide Groups, Total;
      OneGroupMore(|Groups(vals[end..], size)|, size);
    }
  }

  /** Where slice `k` begins: `k * size`, counted up as the loop does. */
  function Offset(k: nat, size: nat): nat {
    if k == 0 then 0 else Offset(k - 1, size) + size
  }

  lemma {:induction false} OffsetIs(k: nat, size: nat)
    ensures Offset(k, size) == k * size
  {
    if k > 0 {
      OffsetIs(k - 1, size);
      OneGroupMore(k - 1, size);
    }
  }

  /** Point `k` is the sum of slice `k`. */
  lemma {:induction false} GroupIsASlice(vals: seq<int>, size: nat, k: nat)
    requires size > 0 && k < |Groups(vals, size)|
    ensures Offset(k, size) < |vals|
    ensures Groups(vals, size)[k] == Total(vals[Offset(k, size)..Min(Offset(k, size) + size, |vals|)])
    decreases |vals|
  {
    hide Groups, Total;
    NoGroups(size);
    assert vals != [];
    FirstGroup(vals, size);
    if k > 0 {
      var end := Min(size, |vals|);
      var rest := vals[end..];
      assert Groups(vals, size)[k] == Groups(rest, size)[k - 1];
      GroupIsASlice(rest, size, k - 1);
      var i := Offset(k - 1, size);
      assert end == size;
      SliceOfRest(vals, size, i, Min(i + size, |rest|));
    }
  }

  lemma SliceOfRest(vals: seq<int>, size: nat, i: nat, j: nat)
    requires size <= |vals| && i <= j <= |vals| - size
    ensures vals[size..][i..j] == vals[i + size..j + size]
  {
  }

  /** However long the series, the sparkline has at most fourteen points. */
  lemma AtMostFourteenPoints(vals: seq<int>)
    ensures |Groups(vals, GroupSize(|vals|))| <= 14
  {
    hide Groups;
    var size := GroupSize(|vals|);
    GroupCount(vals, size);
    FewerThanFifteen(|Groups(vals, size)|, size, |vals|);
  }

  /** ... and no smaller group size would do. */
  lemma {:induction false} GroupSizeIsLeast(vals: seq<int>, size: nat)
    requires 0 < size < GroupSize(|vals|)
    ensures |Groups(vals, size)| > 14
  {
    hide Groups;
    GroupCount(vals, size);
  }

  lemma FewerThanFifteen(points: nat, size: nat, length: nat)
    requires 0 < size && length <= 14 * size && points * size < length + size
    ensures points <= 14
  {
  }

  /** `reduce((s, v) => s + v, 0)` */
  method SumSlice(slice: seq<int>) returns (sum: int)
    ensures sum == Total(slice)
  {
    sum := 0;
    for k := 0 to |slice|
      invariant sum == Total(slice[..k])
    {
      assert slice[..k + 1][..k] == slice[..k];
      sum := sum + slice[k];
    }
    assert slice[..|slice|] == slice;
  }

  // ----- Running total of users -----

  method Cumulative(usersBefore: int, signups: seq<int>) returns (out: seq<int>)
    ensures |out| == |signups|
    ensures forall k :: 0 <= k < |out| ==> out[k] == usersBefore + Total(signups[..k + 1])
    ensures signups != [] ==> out[|out| - 1] == usersBefore + Total(signups)
    ensures (forall k :: 0 <= k < |signups| ==> signups[k] >= 0)
      ==> forall j, k :: 0 <= j <= k < |out| ==> out[j] <= out[k]
  {
    var running := usersBefore;
    out := [];
    for i := 0 to |signups|
      invariant |out| == i && running == usersBefore + Total(signups[..i])
      invariant out != [] ==> out[i - 1] == running
      invariant forall k :: 0 <= k < i ==> out[k] == usersBefore + Total(signups[..k + 1])
      invariant (forall k :: 0 <= k < |signups| ==> signups[k] >= 0)
        ==> forall j, k :: 0 <= j <= k < i ==> out[j] <= out[k]
    {
      assert signups[..i + 1][..i] == signups[..i];
      running := running + signups[i];
      out := out + [running];
    }
    assert signups[..|signups|] == signups;
  }

  // ----- Heatmap -----

  ghost predicate Sorted(vs: seq<int>) {
    forall i, j :: 0 <= i <= j < |vs| ==> vs[i] <= vs[j]
  }

  /** The index of the 95th percentile. */
  function PercentileIndex(count: nat): int {
    ((count - 1) as real * 0.95).Floor
  }

  /** The top of the scale; `nonZero` are the positive cells in ascending order. */
  function ScaleMax(nonZero: seq<int>): int {
    var i := PercentileIndex(|nonZero|);
    Max(if 0 <= i < |nonZero| then nonZero[i] else 1, 1)
  }

  function ScaleMin(nonZero: seq<int>): int {
    Min(if nonZero != [] then nonZero[0] else ScaleMax(nonZero), ScaleMax(nonZero))
  }

  /** The share of the accent colour, in percent. */
  function Shade(nonZero: seq<int>, v: int): int {
    var max, min := ScaleMax(nonZero), ScaleMin(nonZero);
    MathRound(12.0 + 88.0 * (if max > min then MinReal((v - min) as real / (max - min) as real, 1.0) else 1.0))
  }

  /** The cells of the grid above the scale. */
  function CountAbove(vs: seq<int>, bound: int): nat {
    if vs == [] then 0 else CountAbove(vs[..|vs| - 1], bound) + (if vs[|vs| - 1] > bound then 1 else 0)
  }

  lemma {:induction false} FewAbove(vs: seq<int>, i: nat, bound: int)
    requires Sorted(vs) && i < |vs| && vs[i] <= bound
    ensures CountAbove(vs, bound) <= |vs| - 1 - i
  {
    if i == |vs| - 1 {
      NoneAbove(vs, bound);
    } else {
      FewAbove(vs[..|vs| - 1], i, bound);
    }
  }

  lemma {:induction false} NoneAbove(vs: seq<int>, bound: int)
    requires forall k :: 0 <= k < |vs| ==> vs[k] <= bound
    ensures CountAbove(vs, bound) == 0
  {
    if vs != [] {
      NoneAbove(vs[..|vs| - 1], bound);
    }
  }

  /**
   With at least one positive cell the percentile exists, no more cells exceed it than come behind it, and those
   are a twentieth of the others, rounded up.
  */
  lemma PercentileIsInRange(nonZero: seq<int>)
    requires Sorted(nonZero) && nonZero != [] && nonZero[0] > 0
    ensures var i := PercentileIndex(|nonZero|);
      && 0 <= i < |nonZero| && ScaleMax(nonZero) == nonZero[i] && ScaleMin(nonZero) == nonZero[0]
      && CountAbove(nonZero, ScaleMax(nonZero)) <= |nonZero| - 1 - i
      && |nonZero| - 1 <= 20 * (|nonZero| - 1 - i) <= |nonZero| + 18
  {
    var i := PercentileIndex(|nonZero|);
    assert nonZero[0] <= nonZero[i];
    FewAbove(nonZero, i, ScaleMax(nonZero));
  }

  /** Every positive cell gets a visible share of colour, and a larger value never a smaller one. */
  lemma ShadesAreOrdered(nonZero: seq<int>, v: int, w: int)
    requires Sorted(nonZero) && v in nonZero && w in nonZero && nonZero[0] > 0 && v <= w
    ensures 12 <= Shade(nonZero, v) <= Shade(nonZero, w) <= 100
    ensures w >= ScaleMax(nonZero) ==> Shade(nonZero, w) == 100
    ensures v == nonZero[0] < ScaleMax(nonZero) ==> Shade(nonZero, v) == 12
  {
    PercentileIsInRange(nonZero);
    var max, min := ScaleMax(nonZero), ScaleMin(nonZero);
    if max > min {
      ShareIsOrdered((v - min) as real, (w - min) as real, (max - min) as real);
    }
  }

  /**
   The shade of a positive cell is the nearest percentage to 12 and 88 times its share of the way from the
   smallest cell to the top.
  */
  lemma {:induction false} ShadeIsLinear(nonZero: seq<int>, v: int)
    requires Sorted(nonZero) && v in nonZero && nonZero[0] > 0
    ensures var min, max := nonZero[0], ScaleMax(nonZero);
      && (v < max ==>
           2 * (Shade(nonZero, v) - 12) * (max - min) <= 176 * (v - min) + (max - min)
           && 176 * (v - min) + (max - min) < 2 * (Shade(nonZero, v) - 11) * (max - min))
      && (v >= max ==> Shade(nonZero, v) == 100)
  {
    PercentileIsInRange(nonZero);
    var max, min := ScaleMax(nonZero), ScaleMin(nonZero);
    if v < max {
      var share := (v - min) as real / (max - min) as real;
      assert share * (max - min) as real == (v - min) as real;
      ShareIsOrdered((v - min) as real, (max - min) as real, (max - min) as real);
      ShareIsBelowOne(share, v - min, max - min);
      RoundedShare(share, v - min, max - min, Shade(nonZero, v));
    } else {
      ShadesAreOrdered(nonZero, v, v);
    }
  }

  lemma RoundedShare(share: real, part: int, whole: int, shade: int)
    requires whole > 0 && share * whole as real == part as real && shade == MathRound(12.0 + 88.0 * share)
    ensures 2 * (shade - 12) * whole <= 176 * part + whole < 2 * (shade - 11) * whole
  {
    hide MathRound;
    var a := 12 * whole + 88 * part;
    ManyShares(share, part, whole);
    RoundedQuotient(a, whole, shade);
    NextMultiple(shade, whole);
  }

  lemma ManyShares(share: real, part: int, whole: int)
    requires whole > 0 && share * whole as real == part as real
    ensures (12 * whole + 88 * part) as real / whole as real == 12.0 + 88.0 * share
  {
    var w, y := whole as real, 12.0 + 88.0 * share;
    assert y * w == 12.0 * w + 88.0 * (share * w);
    assert (12 * whole + 88 * part) as real == y * w;
    Quotient((12 * whole + 88 * part) as real, w, y);
  }

  lemma NextMultiple(n: int, w: int)
    ensures 2 * (n - 12) * w == 2 * w * n - 24 * w && 2 * (n - 11) * w == 2 * w * (n + 1) - 24 * w
  {
  }

  lemma ShareIsBelowOne(share: real, part: int, whole: int)
    requires 0 <= part < whole && share * whole as real == part as real
    ensures share < 1.0
  {
    if share >= 1.0 {
      Scaled(1.0, share, share + 1.0, whole as real);
    }
  }

  lemma Scaled(a: real, b: real, c: real, w: real)
    requires a <= b < c && w > 0.0
    ensures a * w <= b * w < c * w
  {
  }

  lemma ShareIsOrdered(a: real, b: real, c: real)
    requires 0.0 <= a <= b && c > 0.0
    ensures 0.0 <= a / c <= b / c && (b >= c ==> b / c >= 1.0)
  {
    var x, y := a / c, b / c;
    assert x * c == a && y * c == b;
  }

  // ----- From the grid to the scale -----

  /** `grid.flat()` */
  function Flat(grid: seq<seq<int>>): seq<int> {
    if grid == [] then [] else Flat(grid[..|grid| - 1]) + grid[|grid| - 1]
  }

  /** `.filter((v) => v > 0)` */
  function Positive(vs: seq<int>): seq<int> {
    if vs == [] then [] else Positive(vs[..|vs| - 1]) + (if vs[|vs| - 1] > 0 then [vs[|vs| - 1]] else [])
  }

  function Insert(vs: seq<int>, v: int): seq<int> {
    if vs == [] || vs[|vs| - 1] <= v then vs + [v] else Insert(vs[..|vs| - 1], v) + [vs[|vs| - 1]]
  }

  /** `.sort((x, y) => x - y)` */
  function Ascending(vs: seq<int>): seq<int> {
    if vs == [] then [] else Insert(Ascending(vs[..|vs| - 1]), vs[|vs| - 1])
  }

  /** The rows one after the other, and of these the positive cells in their order. */
  lemma {:induction false} FlatAppends(grid: seq<seq<int>>, row: seq<int>, vs: seq<int>, v: int)
    ensures Flat([]) == [] && Flat(grid + [row]) == Flat(grid) + row
    ensures Positive([]) == [] && Positive(vs + [v]) == Positive(vs) + (if v > 0 then [v] else [])
  {
    assert (grid + [row])[..|grid|] == grid;
    assert (vs + [v])[..|vs|] == vs;
  }

  function NonZero(grid: seq<seq<int>>): seq<int> {
    Ascending(Positive(Flat(grid)))
  }

  lemma {:induction false} InsertKeepsCells(vs: seq<int>, v: int)
    ensures multiset(Insert(vs, v)) == multiset(vs) + multiset{v}
  {
    if vs != [] && vs[|vs| - 1] > v {
      assert vs == vs[..|vs| - 1] + [vs[|vs| - 1]];
      InsertKeepsCells(vs[..|vs| - 1], v);
    }
  }

  lemma {:induction false} InsertIsBounded(vs: seq<int>, v: int, bound: int)
    requires v <= bound && forall i :: 0 <= i < |vs| ==> vs[i] <= bound
    ensures forall i :: 0 <= i < |Insert(vs, v)| ==> Insert(vs, v)[i] <= bound
  {
    if vs != [] && vs[|vs| - 1] > v {
      InsertIsBounded(vs[..|vs| - 1], v, bound);
    }
  }

  lemma SortedAppend(vs: seq<int>, last: int)
    requires Sorted(vs) && forall i :: 0 <= i < |vs| ==> vs[i] <= last
    ensures Sorted(vs + [last])
  {
  }

  lemma {:induction false} InsertSorts(vs: seq<int>, v: int)
    requires Sorted(vs)
    ensures Sorted(Insert(vs, v))
  {
    if vs == [] || vs[|vs| - 1] <= v {
      SortedAppend(vs, v);
    } else {
      var front, last := vs[..|vs| - 1], vs[|vs| - 1];
      InsertSorts(front, v);
      InsertIsBounded(front, v, last);
      hide Sorted;
      SortedAppend(Insert(front, v), last);
    }
  }

  lemma {:induction false} AscendingSorts(vs: seq<int>)
    ensures Sorted(Ascending(vs)) && multiset(Ascending(vs)) == multiset(vs)
  {
    if vs != [] {
      assert vs == vs[..|vs| - 1] + [vs[|vs| - 1]];
      hide Sorted, Insert;
      AscendingSorts(vs[..|vs| - 1]);
      InsertKeepsCells(Ascending(vs[..|vs| - 1]), vs[|vs| - 1]);
      InsertSorts(Ascending(vs[..|vs| - 1]), vs[|vs| - 1]);
    }
  }

  lemma {:induction false} PositiveCells(vs: seq<int>, v: int)
    ensures v in Positive(vs) <==> v in vs && v > 0
    ensures |Positive(vs)| <= |vs|
  {
    if vs != [] {
      var front, last := vs[..|vs| - 1], vs[|vs| - 1];
      PositiveCells(front, v);
      assert v in vs <==> v in front || v == last;
    }
  }

  lemma {:induction false} CellsOf(grid: seq<seq<int>>, v: int)
    ensures v in Flat(grid) <==> exists d :: 0 <= d < |grid| && v in grid[d]
  {
    if grid != [] {
      var front, last := grid[..|grid| - 1], grid[|grid| - 1];
      CellsOf(front, v);
      assert v in Flat(grid) <==> v in Flat(front) || v in last;
      if v in Flat(front) {
        var d :| 0 <= d < |front| && v in front[d];
        assert v in grid[d];
      }
      if d :| 0 <= d < |grid| && v in grid[d] {
        assert d < |front| ==> v in front[d];
      }
    }
  }

  lemma {:induction false} CountConcat(a: seq<int>, b: seq<int>, bound: int)
    ensures CountAbove(a + b, bound) == CountAbove(a, bound) + CountAbove(b, bound)
  {
    if b == [] {
      assert a + b == a;
    } else {
      assert (a + b)[..|a + b| - 1] == a + b[..|b| - 1];
      CountConcat(a, b[..|b| - 1], bound);
    }
  }

  lemma CountLast(a: seq<int>, v: int, bound: int)
    ensures CountAbove(a + [v], bound) == CountAbove(a, bound) + (if v > bound then 1 else 0)
  {
    assert (a + [v])[..|a|] == a;
  }

  lemma {:induction false} CountInserted(vs: seq<int>, v: int, bound: int)
    ensures CountAbove(Insert(vs, v), bound) == CountAbove(vs, bound) + (if v > bound then 1 else 0)
  {
    hide CountAbove;
    if vs == [] || vs[|vs| - 1] <= v {
      CountLast(vs, v, bound);
    } else {
      var front, last := vs[..|vs| - 1], vs[|vs| - 1];
      assert vs == front + [last];
      CountInserted(front, v, bound);
      CountLast(Insert(front, v), last, bound);
      CountLast(front, last, bound);
    }
  }

  lemma {:induction false} CountAscending(vs: seq<int>, bound: int)
    ensures CountAbove(Ascending(vs), bound) == CountAbove(vs, bound)
  {
    if vs != [] {
      CountAscending(vs[..|vs| - 1], bound);
      CountInserted(Ascending(vs[..|vs| - 1]), vs[|vs| - 1], bound);
    }
  }

  lemma {:induction false} CountPositive(vs: seq<int>, bound: nat)
    ensures CountAbove(Positive(vs), bound) == CountAbove(vs, bound)
  {
    if vs != [] {
      CountPositive(vs[..|vs| - 1], bound);
      CountConcat(Positive(vs[..|vs| - 1]), if vs[|vs| - 1] > 0 then [vs[|vs| - 1]] else [], bound);
    }
  }

  /** The cells the scale is made of. */
  lemma NonZeroCells(grid: seq<seq<int>>)
    ensures Sorted(NonZero(grid)) && multiset(NonZero(grid)) == multiset(Positive(Flat(grid)))
    ensures forall v :: v in NonZero(grid) <==> v > 0 && exists d :: 0 <= d < |grid| && v in grid[d]
  {
    hide Flat, Positive, Ascending;
    AscendingSorts(Positive(Flat(grid)));
    forall v ensures v in NonZero(grid) <==> v > 0 && exists d :: 0 <= d < |grid| && v in grid[d] {
      PositiveCells(Flat(grid), v);
      CellsOf(grid, v);
      assert v in NonZero(grid) <==> v in multiset(NonZero(grid));
      assert v in Positive(Flat(grid)) <==> v in multiset(Positive(Flat(grid)));
    }
  }

  /**
   The scale of a whole grid: with `n` positive cells, at most a twentieth of the `n - 1` others, rounded up, are
   above its top, which is a cell of the grid; without positive cells it is 1 to 1, and no cell is above it.
  */
  lemma {:induction false} GridScale(grid: seq<seq<int>>)
    ensures var n, max := |NonZero(grid)|, ScaleMax(NonZero(grid));
      var above := CountAbove(Flat(grid), max);
      && max >= 1
      && (n > 0 ==> max in NonZero(grid) && above <= n - 1 - PercentileIndex(n) && 20 * above <= n + 18)
      && (n == 0 ==> max == 1 && ScaleMin(NonZero(grid)) == 1 && above == 0)
  {
    var nonZero := NonZero(grid);
    var max := ScaleMax(nonZero);
    hide Flat, Positive, Ascending, Sorted;
    NonZeroCells(grid);
    CountPositive(Flat(grid), max);
    CountAscending(Positive(Flat(grid)), max);
    if nonZero != [] {
      assert nonZero[0] in nonZero;
      PercentileIsInRange(nonZero);
    }
  }

  /** Every positive cell of the grid gets a visible share of colour, and a larger value never a smaller one. */
  lemma GridShades(grid: seq<seq<int>>, c: nat, d: nat, v: int, w: int)
    requires c < |grid| && d < |grid| && v in grid[c] && w in grid[d] && 0 < v <= w
    ensures var nonZero := NonZero(grid);
      && 12 <= Shade(nonZero, v) <= Shade(nonZero, w) <= 100
      && (w >= ScaleMax(nonZero) ==> Shade(nonZero, w) == 100)
      && (v < ScaleMax(nonZero) && (forall u :: u in Flat(grid) && u > 0 ==> v <= u) ==> Shade(nonZero, v) == 12)
  {
    var nonZero := NonZero(grid);
    hide Flat, Positive, Ascending, Shade;
    NonZeroCells(grid);
    assert v in nonZero && w in nonZero && nonZero[0] in nonZero;
    ShadesAreOrdered(nonZero, v, w);
    CellsOf(grid, nonZero[0]);
    assert nonZero[0] <= v;
  }
}
