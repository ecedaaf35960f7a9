/** `xTickIndexes` of `frontend/components/analytics/charts.tsx`: which of `n` labels are shown on an axis. */
module TickIndexes {
  import opened JsMath

  function Count(n: nat, width: int): int {
    Max(2, Min(n, width / 80))
  }

  function Index(i: nat, n: nat, count: int): int
    requires count >= 2
  {
    MathRound((i * (n - 1)) as real / (count - 1) as real)
  }

  function XTickIndexes(n: nat, width: int): seq<int> {
    var count := Count(n, width);
    if n <= count then seq(n, i => i) else seq(count, i requires 0 <= i < count => Index(i, n, count))
  }

  lemma Associate(a: real, b: real, c: real)
    ensures a * (b * c) == a * b * c
  {
  }

  lemma Rounded(n: int)
    ensures MathRound(n as real) == n
  {
  }

  /** With `q` labels from one shown label to the next on average, every index is the one nearest to its even place. */
  lemma Placed(i: nat, n: nat, count: int, q: real, x: real)
    requires 2 <= count < n && q * (count - 1) as real == (n - 1) as real && x == i as real * q
    ensures Index(i, n, count) == MathRound(x)
  {
    hide MathRound;
    CastProduct(i, n - 1);
    Associate(i as real, q, (count - 1) as real);
    Quotient((i * (n - 1)) as real, (count - 1) as real, x);
  }

  lemma Ends(n: nat, count: int)
    requires 2 <= count < n
    ensures Index(0, n, count) == 0 && Index(count - 1, n, count) == n - 1
  {
    hide MathRound;
    Quotient(0.0, (count - 1) as real, 0.0);
    Rounded(0);
    CastProduct(count - 1, n - 1);
    Quotient(((count - 1) * (n - 1)) as real, (count - 1) as real, (n - 1) as real);
    Rounded(n - 1);
  }

  lemma GapIsNearlyEven(x: real, q: real)
    requires q > 1.0
    ensures var gap := MathRound(x + q) - MathRound(x);
      q.Floor <= gap <= q.Floor + 1 && gap >= 1
  {
  }

  /** So every gap is the average gap rounded down or up. */
  lemma Gap(k: nat, n: nat, count: int, q: real)
    requires 2 <= count < n && q * (count - 1) as real == (n - 1) as real
    ensures q > 1.0
    ensures var gap := Index(k + 1, n, count) - Index(k, n, count);
      q.Floor <= gap <= q.Floor + 1 && gap >= 1
  {
    hide MathRound, Index;
    MoreThanOne(q, count - 1, n - 1);
    var x := k as real * q;
    assert (k + 1) as real * q == x + q;
    Placed(k, n, count, q, x);
    Placed(k + 1, n, count, q, x + q);
    GapIsNearlyEven(x, q);
  }

  lemma MoreThanOne(q: real, a: int, b: int)
    requires 0 < a < b && q * a as real == b as real
    ensures q > 1.0
  {
  }

  /**
   The shown labels are strictly increasing and inside the list, they contain both ends, there are no more
   than fit 80 pixels apart (but at least two), and any two gaps between neighbours differ by at most one.
  */
  lemma {:induction false} TicksAreEven(n: nat, width: int)
    ensures var ticks := XTickIndexes(n, width);
      && |ticks| == Min(n, Max(2, width / 80))
      && (forall k :: 0 <= k < |ticks| ==> 0 <= ticks[k] < n)
      && (n >= 2 ==> |ticks| >= 2 && ticks[0] == 0 && ticks[|ticks| - 1] == n - 1)
      && (forall k :: 0 <= k < |ticks| - 1 ==> ticks[k] < ticks[k + 1])
      && (forall j, k :: 0 <= j < |ticks| - 1 && 0 <= k < |ticks| - 1 ==>
           ticks[j + 1] - ticks[j] <= ticks[k + 1] - ticks[k] + 1)
  {
    hide Index;
    var count := Count(n, width);
    if count < n {
      var ticks := XTickIndexes(n, width);
      var q := (n - 1) as real / (count - 1) as real;
      forall k | 0 <= k < count - 1
        ensures ticks[k] < ticks[k + 1] && q.Floor <= ticks[k + 1] - ticks[k] <= q.Floor + 1
      {
        Gap(k, n, count, q);
      }
      Ends(n, count);
      Increasing(ticks);
    }
  }

  /** Label `k` is the one nearest to the even place `k * (n - 1) / (count - 1)`, the later one from the middle. */
  lemma {:induction false} TicksAreNearest(n: nat, width: int, k: nat)
    requires var ticks := XTickIndexes(n, width); k < |ticks| < n
    ensures var ticks := XTickIndexes(n, width);
      var d := |ticks| - 1;
      d > 0 && 2 * d * ticks[k] <= 2 * k * (n - 1) + d < 2 * d * (ticks[k] + 1)
  {
    var ticks := XTickIndexes(n, width);
    var d := |ticks| - 1;
    var a := k * (n - 1);
    assert ticks[k] == Index(k, n, d + 1) == MathRound(a as real / d as real);
    hide MathRound, Index, XTickIndexes;
    RoundedQuotient(a, d, ticks[k]);
  }

  lemma {:induction false} Increasing(s: seq<int>)
    requires forall k :: 0 <= k < |s| - 1 ==> s[k] < s[k + 1]
    ensures forall j, k :: 0 <= j <= k < |s| ==> s[j] <= s[k]
  {
    if |s| > 1 {
      var t := s[..|s| - 1];
      Increasing(t);
      forall j, k | 0 <= j <= k < |s| ensures s[j] <= s[k] {
        if j < k && k == |s| - 1 {
          assert t[j] <= t[k - 1];
        }
        if k < |s| - 1 {
          assert t[j] <= t[k];
        }
      }
    }
  }
}
