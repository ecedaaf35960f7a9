/** `niceTicks` of `frontend/components/analytics/charts.tsx`, in exact arithmetic. */
module AxisTicks {
  import opened JsMath
  import opened Options

  // ----- Powers of ten -----

  function Pow10(k: int): real
    decreases if k < 0 then -k else k
  {
    if k == 0 then 1.0 else if k > 0 then 10.0 * Pow10(k - 1) else Pow10(k + 1) / 10.0
  }

  lemma {:induction false} Pow10Step(k: int)
    ensures Pow10(k) > 0.0 && Pow10(k + 1) == 10.0 * Pow10(k)
    decreases if k < 0 then -k else k
  {
    if k > 0 {
      Pow10Step(k - 1);
    } else if k < 0 {
      Pow10Step(k + 1);
    }
  }

  /** `Math.floor(Math.log10(x))`: the exponent of the largest power of ten that is not above `x`. */
  function FloorLog10(x: real): int
    requires x > 0.0
    decreases if x >= 1.0 then x.Floor else (1.0 / x).Floor + 10
  {
    if x >= 10.0 then FloorLog10(x / 10.0) + 1
    else if x < 1.0 then
      assert 1.0 / (x * 10.0) == (1.0 / x) / 10.0;
      FloorLog10(x * 10.0) - 1
    else 0
  }

  lemma {:induction false} FloorLog10Brackets(x: real)
    requires x > 0.0
    ensures Pow10(FloorLog10(x)) <= x < Pow10(FloorLog10(x) + 1)
    decreases if x >= 1.0 then x.Floor else (1.0 / x).Floor + 10
  {
    var k := FloorLog10(x);
    Pow10Step(k);
    if x >= 10.0 {
      FloorLog10Brackets(x / 10.0);
      Pow10Step(k - 1);
    } else if x < 1.0 {
      assert 1.0 / (x * 10.0) == (1.0 / x) / 10.0;
      FloorLog10Brackets(x * 10.0);
      Pow10Step(k + 1);
    }
  }

  lemma {:induction false} Pow10Grows(j: int, k: int)
    requires j <= k
    ensures Pow10(j) <= Pow10(k)
    decreases k - j
  {
    if j < k {
      Pow10Step(j);
      Pow10Grows(j + 1, k);
    }
  }

  lemma FloorLog10Is(x: real, k: int)
    requires x > 0.0 && Pow10(k) <= x < Pow10(k + 1)
    ensures FloorLog10(x) == k
  {
    hide Pow10, FloorLog10;
    var j := FloorLog10(x);
    FloorLog10Brackets(x);
    if j < k { Pow10Grows(j + 1, k); }
    if k < j { Pow10Grows(k + 1, j); }
  }

  // ----- The code -----

  function FirstAtLeast(candidates: seq<real>, bound: real): Option<real> {
    if candidates == [] then None
    else if candidates[0] >= bound then Some(candidates[0])
    else FirstAtLeast(candidates[1..], bound)
  }

  function Candidates(mag: real): seq<real> {
    [1.0 * mag, 2.0 * mag, 2.5 * mag, 5.0 * mag, 10.0 * mag]
  }

  function StepSize(max: real): real
    requires max > 0.0
  {
    var raw := max / 3.0;
    var mag := Pow10(FloorLog10(raw));
    match FirstAtLeast(Candidates(mag), raw)
    case Some(step) => step
    case None => raw
  }

  /** `+x.toFixed(6)`: rounded to millionths (section 21.1.3.3 of ECMA-262). */
  function ToFixed6(x: real): real {
    MathRound(x * 1000000.0) as real / 1000000.0
  }

  /** The `n`-th tick the loop pushes. */
  function Tick(step: real, n: nat): real {
    if n == 0 then 0.0 else ToFixed6(Tick(step, n - 1) + step)
  }

  /** The loop stops behind tick `n`: it is the first one that reaches `max`. */
  ghost predicate StopsAt(max: real, n: nat)
    requires max > 0.0
  {
    Tick(StepSize(max), n) >= max && forall i :: 0 <= i < n ==> Tick(StepSize(max), i) < max
  }

  function TicksUpTo(step: real, n: nat): seq<real> {
    if n == 0 then [0.0] else TicksUpTo(step, n - 1) + [Tick(step, n)]
  }

  lemma {:induction false} TickAt(step: real, n: nat, i: nat)
    requires i <= n
    ensures |TicksUpTo(step, n)| == n + 1 && TicksUpTo(step, n)[i] == Tick(step, i)
  {
    if n > 0 {
      TickAt(step, n - 1, if i < n then i else 0);
    }
  }

  /** The loop ends where it is said to, for every maximum for which it ends at all. */
  method NiceTicks(max: real, ghost last: nat) returns (ticks: seq<real>)
    requires max > 0.0 ==> StopsAt(max, last)
    ensures max <= 0.0 ==> ticks == [0.0, 1.0]
    ensures max > 0.0 ==> ticks == TicksUpTo(StepSize(max), last)
  {
    if max <= 0.0 {
      return [0.0, 1.0];
    }
    hide StepSize, ToFixed6;
    var step := StepSize(max);
    ticks := [0.0];
    ghost var n: nat := 0;
    TickAt(step, 0, 0);
    while ticks[|ticks| - 1] < max
      invariant n <= last && ticks == TicksUpTo(step, n)
      invariant |ticks| == n + 1 && ticks[n] == Tick(step, n)
      decreases last - n
    {
      n := n + 1;
      ticks := ticks + [ToFixed6(ticks[|ticks| - 1] + step)];
    }
  }

  // ----- The step -----

  /**
   One of the five candidates is always large enough, so the fallback is never taken, and it is less than twice
   the third of the maximum.
  */
  lemma StepIsACandidate(max: real)
    requires max > 0.0
    ensures var mag := Pow10(FloorLog10(max / 3.0));
      && mag > 0.0
      && FirstAtLeast(Candidates(mag), max / 3.0) == Some(StepSize(max))
      && StepSize(max) in Candidates(mag)
      && max / 3.0 <= StepSize(max) < 2.0 * (max / 3.0)
  {
    var raw := max / 3.0;
    var k := FloorLog10(raw);
    var mag := Pow10(k);
    FloorLog10Brackets(raw);
    Pow10Step(k);
    FindCandidate(mag, raw);
  }

  lemma FindCandidate(mag: real, raw: real)
    requires 0.0 < mag <= raw < 10.0 * mag
    ensures var found := FirstAtLeast(Candidates(mag), raw);
      && found.Some? && found.value in Candidates(mag)
      && raw <= found.value < 2.0 * raw
      && found == Some(if raw <= mag then mag else if raw <= 2.0 * mag then 2.0 * mag
        else if raw <= 2.5 * mag then 2.5 * mag
                       else if raw <= 5.0 * mag then 5.0 * mag else 10.0 * mag)
  {
    var c := Candidates(mag);
    assert c[1..][1..] == c[2..] && c[2..][1..] == c[3..] && c[3..][1..] == c[4..];
    assert FirstAtLeast(c[4..], raw) == Some(10.0 * mag);
    assert FirstAtLeast(c[3..], raw) == if raw <= 5.0 * mag then Some(5.0 * mag) else Some(10.0 * mag);
    assert FirstAtLeast(c[2..], raw) == if raw <= 2.5 * mag then Some(2.5 * mag) else FirstAtLeast(c[3..], raw);
    assert FirstAtLeast(c[1..], raw) == if raw <= 2.0 * mag then Some(2.0 * mag) else FirstAtLeast(c[2..], raw);
    assert c[0] == mag && c[1] == 2.0 * mag && c[2] == 2.5 * mag && c[3] == 5.0 * mag && c[4] == 10.0 * mag;
  }

  /**
   The step is the smallest of all 1, 2, 2.5, 5 and 10 times a power of ten that is not below a third of the
   maximum.
  */
  lemma {:induction false} StepIsLeast(max: real, m: real, k: int)
    requires max > 0.0 && (m == 1.0 || m == 2.0 || m == 2.5 || m == 5.0 || m == 10.0)
    requires m * Pow10(k) >= max / 3.0
    ensures max / 3.0 <= StepSize(max) <= m * Pow10(k)
  {
    hide *;
    var raw := max / 3.0;
    var j := FloorLog10(raw);
    FloorLog10Brackets(raw);
    Pow10Step(k);
    Pow10Step(j);
    StepInDecade(max, j);
    if k > j {
      Pow10Grows(j + 1, k);
    } else if k < j {
      Pow10Grows(k + 1, j);
    }
    LeastInDecade(raw, StepSize(max), Pow10(j), m, Pow10(k), k - j);
  }

  lemma LeastInDecade(raw: real, step: real, mag: real, m: real, p: real, above: int)
    requires 0.0 < mag <= raw < 10.0 * mag && p > 0.0
    requires step == if raw <= mag then mag else if raw <= 2.0 * mag then 2.0 * mag
                     else if raw <= 2.5 * mag then 2.5 * mag
                     else if raw <= 5.0 * mag then 5.0 * mag else 10.0 * mag
    requires m == 1.0 || m == 2.0 || m == 2.5 || m == 5.0 || m == 10.0
    requires if above == 0 then p == mag else if above > 0 then 10.0 * mag <= p else 10.0 * p <= mag
    requires m * p >= raw
    ensures raw <= step <= m * p
  {
    assert m * p == if m == 1.0 then p else if m == 2.0 then 2.0 * p else if m == 2.5 then 2.5 * p
                    else if m == 5.0 then 5.0 * p else 10.0 * p;
  }

  /** Powers of ten: 1, and ten times as much with every step. */
  lemma {:induction false} PowersExactly(k: int)
    ensures Pow10(0) == 1.0 && Pow10(k + 1) == 10.0 * Pow10(k)
  {
    Pow10Step(k);
  }

  /** The power of ten itself, or 2, 2.5, 5 or 10 times as much. */
  predicate IsMultiple(w: real, p: real) {
    w == p || w == 2.0 * p || w == 2.5 * p || w == 5.0 * p || w == 10.0 * p
  }

  lemma CandidatesExactly(w: real, p: real)
    ensures w in Candidates(p) <==> IsMultiple(w, p)
  {
    var c := Candidates(p);
    assert c[0] == p && c[1] == 2.0 * p && c[2] == 2.5 * p && c[3] == 5.0 * p && c[4] == 10.0 * p;
    assert c[0] in c && c[1] in c && c[2] in c && c[3] in c && c[4] in c;
  }

  /** Round numbers are 1, 2, 2.5, 5 and 10 times the powers of ten. */
  lemma {:induction false} RoundExactly(w: real)
    ensures Round(w) <==> exists k :: IsMultiple(w, Pow10(k))
  {
    hide Pow10, IsMultiple, Candidates;
    if Round(w) {
      var k :| w in Candidates(Pow10(k));
      CandidatesExactly(w, Pow10(k));
      assert IsMultiple(w, Pow10(k));
    }
    if k :| IsMultiple(w, Pow10(k)) {
      CandidatesExactly(w, Pow10(k));
    }
  }

  /** Ticks are rounded to the nearest millionth. */
  lemma {:induction false} NearestMillionth(x: real) returns (n: int)
    ensures ToFixed6(x) * 1000000.0 == n as real && n as real - 0.5 <= x * 1000000.0 < n as real + 0.5
  {
    n := MathRound(x * 1000000.0);
  }

  // ----- Rounding loses nothing -----

  predicate IsMillionths(x: real, n: int) {
    x * 1000000.0 == n as real
  }

  lemma {:induction false} RoundingKeepsMillionths(x: real, n: int)
    requires IsMillionths(x, n)
    ensures ToFixed6(x) == x
  {
    RoundInteger(n);
    assert n as real / 1000000.0 == x;
  }

  lemma RoundInteger(n: int)
    ensures MathRound(n as real) == n
  {
  }

  lemma {:induction false} TicksAreMultiples(step: real, n: nat, m: int)
    requires IsMillionths(step, m)
    ensures Tick(step, n) == n as real * step && IsMillionths(Tick(step, n), n * m)
  {
    if n > 0 {
      TicksAreMultiples(step, n - 1, m);
      RoundingKeepsMillionths(Tick(step, n - 1) + step, n * m);
    }
  }

  /** From 10^-5 on every power of ten is a multiple of 10 millionths. */
  lemma {:induction false} PowerInMillionths(k: int) returns (t: int)
    requires k >= -5
    ensures Pow10(k) * 100000.0 == t as real && t >= 1
    decreases k + 5
  {
    if k == -5 {
      SmallPowers();
      t := 1;
    } else {
      t := PowerInMillionths(k - 1);
      Pow10Step(k - 1);
      t := 10 * t;
    }
  }

  lemma SmallPowers()
    ensures Pow10(-5) == 0.00001 && Pow10(-6) == 0.000001 && Pow10(-7) == 0.0000001 && Pow10(-4) == 0.0001
  {
    assert Pow10(-1) == 0.1;
    assert Pow10(-2) == 0.01;
    assert Pow10(-3) == 0.001;
    assert Pow10(-4) == 0.0001;
    assert Pow10(-5) == 0.00001;
    assert Pow10(-6) == 0.000001;
    assert Pow10(-7) == 0.0000001;
  }

  // ----- The promise: 0 and two or three round steps up to the first value that reaches the maximum -----

  /** One, two, two and a half, five or ten times a power of ten. */
  ghost predicate Round(w: real) {
    exists k :: w in Candidates(Pow10(k))
  }

  ghost predicate RoundSteps(max: real, n: nat, w: real)
    requires max > 0.0
  {
    Round(w) && EqualSteps(max, n, w)
  }

  ghost predicate EqualSteps(max: real, n: nat, w: real)
    requires max > 0.0
  {
    && 2 <= n <= 3 && w > 0.0
    && (forall i :: 0 <= i <= n ==> Tick(StepSize(max), i) == Times(i, w))
    && Times(n - 1, w) < max <= Times(n, w)
  }

  function Times(i: int, w: real): real {
    i as real * w
  }

  lemma TimesGrows(i: int, j: int, w: real)
    requires i <= j && w > 0.0
    ensures Times(i, w) <= Times(j, w)
  {
  }

  lemma {:induction false} EqualStepsStop(max: real, n: nat, w: real)
    requires max > 0.0 && EqualSteps(max, n, w)
    ensures StopsAt(max, n)
  {
    hide StepSize, Tick, Times;
    forall i | 0 <= i < n ensures Tick(StepSize(max), i) < max {
      TimesGrows(i, n - 1, w);
    }
  }

  lemma MillionthsKeepThePromise(max: real, m: int) returns (n: nat)
    requires max > 0.0 && IsMillionths(StepSize(max), m)
    ensures EqualSteps(max, n, StepSize(max))
  {
    hide StepSize, Tick;
    var step := StepSize(max);
    StepIsACandidate(max);
    n := if max <= 2.0 * step then 2 else 3;
    forall i | 0 <= i <= n ensures Tick(step, i) == Times(i, step) {
      TicksAreMultiples(step, i, m);
    }
  }

  lemma StepIsRound(max: real)
    requires max > 0.0
    ensures Round(StepSize(max))
  {
    StepIsACandidate(max);
  }

  /** From 0.00003 on, rounding to six places changes no tick: the promise is kept with the step itself. */
  lemma NiceFromThirtyMillionths(max: real) returns (n: nat)
    requires max >= 0.00003
    ensures RoundSteps(max, n, StepSize(max)) && StopsAt(max, n)
  {
    hide StepSize, Tick, Pow10, FloorLog10, Round;
    var raw := max / 3.0;
    var k := FloorLog10(raw);
    FloorLog10Brackets(raw);
    SmallPowers();
    StepIsRound(max);
    if k < -5 { Pow10Grows(k + 1, -5); }
    var t := PowerInMillionths(k);
    StepIsACandidate(max);
    var m := CandidateInMillionths(Pow10(k), t, StepSize(max));
    n := MillionthsKeepThePromise(max, m);
    EqualStepsStop(max, n, StepSize(max));
  }

  lemma CandidateInMillionths(mag: real, t: int, step: real) returns (m: int)
    requires mag * 100000.0 == t as real && step in Candidates(mag)
    ensures IsMillionths(step, m)
  {
    m := if step == mag then 10 * t else if step == 2.0 * mag then 20 * t else if step == 2.5 * mag then 25 * t
         else if step == 5.0 * mag then 50 * t else 100 * t;
  }

  // ----- Below that -----

  /** Up to 0.00000075 the step rounds to nothing and the loop never ends. */
  lemma TinyMaximaNeverStop(max: real, n: nat)
    requires 0.0 < max <= 0.00000075
    ensures !StopsAt(max, n)
  {
    hide StepSize, Tick, Pow10, FloorLog10;
    TinyStep(max);
    StuckAtZero(StepSize(max), n);
  }

  lemma TinyStep(max: real)
    requires 0.0 < max <= 0.00000075
    ensures 0.0 < StepSize(max) < 0.0000005
  {
    StepIsACandidate(max);
  }

  lemma {:induction false} StuckAtZero(step: real, n: nat)
    requires 0.0 < step < 0.0000005
    ensures Tick(step, n) == 0.0
  {
    if n > 0 {
      StuckAtZero(step, n - 1);
    }
  }

  lemma StepInDecade(max: real, k: int)
    requires max > 0.0 && Pow10(k) <= max / 3.0 < Pow10(k + 1)
    ensures var raw, mag := max / 3.0, Pow10(k);
      StepSize(max) == if raw <= mag then mag else if raw <= 2.0 * mag then 2.0 * mag
        else if raw <= 2.5 * mag then 2.5 * mag
                       else if raw <= 5.0 * mag then 5.0 * mag else 10.0 * mag
  {
    hide Pow10, FloorLog10, Candidates;
    FloorLog10Is(max / 3.0, k);
    Pow10Step(k);
    FindCandidate(Pow10(k), max / 3.0);
  }

  /** The step for the maxima between the two bounds. */
  lemma SmallStep(max: real)
    requires 0.00000075 < max < 0.00003
    ensures StepSize(max) ==
      if max <= 0.0000015 then 0.0000005 else if max <= 0.000003 then 0.000001 else if max <= 0.000006 then 0.000002
      else if max <= 0.0000075 then 0.0000025 else if max <= 0.000015 then 0.000005 else 0.00001
  {
    hide Pow10, StepSize;
    SmallPowers();
    StepInDecade(max, if max < 0.000003 then -7 else -6);
  }

  lemma HalfMillionthTicks()
    ensures Tick(0.0000005, 0) == 0.0 && Tick(0.0000005, 1) == 0.000001 && Tick(0.0000005, 2) == 0.000002
  {
    assert ToFixed6(0.0000005) == 0.000001;
    assert ToFixed6(0.0000015) == 0.000002;
  }

  lemma OddTicks()
    ensures Tick(0.0000025, 0) == 0.0 && Tick(0.0000025, 1) == 0.000003
    ensures Tick(0.0000025, 2) == 0.000006 && Tick(0.0000025, 3) == 0.000009
  {
    assert ToFixed6(0.0000025) == 0.000003;
    assert ToFixed6(0.0000055) == 0.000006;
    assert ToFixed6(0.0000085) == 0.000009;
  }

  /** The maxima whose step of 2.5 millionths is rounded up at every second tick. */
  predicate IsOdd(max: real) {
    0.000006 < max <= 0.0000075
  }

  lemma SmallEqualSteps(max: real) returns (n: nat, w: real)
    requires 0.000001 < max < 0.00003
    ensures EqualSteps(max, n, w)
    ensures IsOdd(max) ==> w == 0.000003
    ensures !IsOdd(max) ==> w == if max <= 0.0000015 then 0.000001 else StepSize(max)
  {
    hide StepSize, Tick;
    SmallStep(max);
    if max <= 0.0000015 {
      HalfMillionthTicks();
      n, w := 2, 0.000001;
    } else if IsOdd(max) {
      OddTicks();
      n, w := 3, 0.000003;
    } else {
      w := StepSize(max);
      var m := if max <= 0.000003 then 1 else if max <= 0.000006 then 2 else if max <= 0.000015 then 5 else 10;
      assert IsMillionths(w, m);
      n := MillionthsKeepThePromise(max, m);
    }
  }

  lemma MillionthIsRound()
    ensures Round(0.000001)
  {
    SmallPowers();
    assert 0.000001 in Candidates(Pow10(-6));
  }

  lemma ThreeMillionthsAreNotRound()
    ensures !Round(0.000003)
  {
    hide Pow10;
    SmallPowers();
    forall k ensures 0.000003 !in Candidates(Pow10(k)) {
      Pow10Step(k);
      if k <= -7 { Pow10Grows(k, -7); }
      if k >= -5 { Pow10Grows(-5, k); }
    }
  }

  /** All equal steps have the width of the first one. */
  lemma WidthIsFirstTick(max: real, n: nat, w: real)
    requires max > 0.0 && EqualSteps(max, n, w)
    ensures w == Tick(StepSize(max), 1)
  {
    hide StepSize, Tick;
    assert Times(1, w) == w;
  }

  lemma OddMaximaBreakThePromise(max: real)
    requires IsOdd(max)
    ensures !KeepsPromise(max)
  {
    hide StepSize, Tick, Round, Times;
    SmallStep(max);
    OddTicks();
    ThreeMillionthsAreNotRound();
    forall n, w ensures !RoundSteps(max, n, w) {
      if RoundSteps(max, n, w) {
        WidthIsFirstTick(max, n, w);
      }
    }
  }

  ghost predicate KeepsPromise(max: real)
    requires max > 0.0
  {
    exists n, w :: RoundSteps(max, n, w)
  }

  ghost predicate Stops(max: real)
    requires max > 0.0
  {
    exists n :: StopsAt(max, n)
  }

  lemma FirstTickIsBelow(max: real, n: nat, w: real)
    requires max > 0.0 && EqualSteps(max, n, w)
    ensures Tick(StepSize(max), 1) < max
  {
    hide StepSize, Tick;
    assert Times(1, w) == w;
    TimesGrows(1, n - 1, w);
  }

  lemma StopsAfterOneStep(max: real)
    requires 0.00000075 < max <= 0.000001
    ensures StopsAt(max, 1) && !KeepsPromise(max)
  {
    hide StepSize, Tick, Round;
    SmallStep(max);
    HalfMillionthTicks();
    forall n, w ensures !RoundSteps(max, n, w) {
      if RoundSteps(max, n, w) {
        FirstTickIsBelow(max, n, w);
      }
    }
  }

  lemma SmallPromise(max: real)
    requires 0.000001 < max < 0.00003 && !IsOdd(max)
    ensures KeepsPromise(max)
  {
    hide StepSize, EqualSteps, Round;
    var n, w := SmallEqualSteps(max);
    if max <= 0.0000015 {
      MillionthIsRound();
    } else {
      StepIsRound(max);
    }
    assert RoundSteps(max, n, w);
  }

  /**
   Two or three round steps from 0 to the first value that reaches the maximum: exactly above one millionth, but
   for the stretch from six to seven and a half millionths, where the ticks are multiples of three millionths.
  */
  lemma PromiseKeptExactly(max: real)
    requires max > 0.0
    ensures KeepsPromise(max) <==> max > 0.000001 && !(0.000006 < max <= 0.0000075)
  {
    hide StepSize, Tick, Round, EqualSteps;
    if max >= 0.00003 {
      var n := NiceFromThirtyMillionths(max);
    } else if IsOdd(max) {
      OddMaximaBreakThePromise(max);
    } else if max > 0.000001 {
      SmallPromise(max);
    } else if max > 0.00000075 {
      StopsAfterOneStep(max);
    } else {
      forall n, w ensures !RoundSteps(max, n, w) {
        if RoundSteps(max, n, w) {
          EqualStepsStop(max, n, w);
          TinyMaximaNeverStop(max, n);
        }
      }
    }
  }

  /** The loop ends exactly above three quarters of a millionth. */
  lemma StopsExactly(max: real)
    requires max > 0.0
    ensures Stops(max) <==> max > 0.00000075
  {
    hide StepSize, Tick, EqualSteps, Round;
    if max >= 0.00003 {
      var n := NiceFromThirtyMillionths(max);
    } else if max > 0.000001 {
      var n, w := SmallEqualSteps(max);
      EqualStepsStop(max, n, w);
    } else if max > 0.00000075 {
      StopsAfterOneStep(max);
    } else {
      forall n ensures !StopsAt(max, n) {
        TinyMaximaNeverStop(max, n);
      }
    }
  }
}
