/** `shuffledIndices` of `frontend/components/HiddenEntryOverlay.tsx`. */
module Shuffle {
  function Identity(n: nat): seq<nat> {
    seq(n, i => i)
  }

  function Swap(s: seq<nat>, i: nat, j: nat): seq<nat>
    requires i < |s| && j < |s|
  {
    s[i := s[j]][j := s[i]]
  }

  /** One choice for every position, at most the position itself. */
  predicate AreChoices(js: seq<nat>) {
    forall i :: 0 <= i < |js| ==> js[i] <= i
  }

  /** The swaps of positions `i`, `i - 1`, ..., 1 with the chosen ones. */
  function ShuffleFrom(s: seq<nat>, js: seq<nat>, i: nat): seq<nat>
    requires |js| == |s| && AreChoices(js) && (i < |s| || i == 0)
    decreases i
  {
    if i == 0 then s else ShuffleFrom(Swap(s, i, js[i]), js, i - 1)
  }

  function Shuffled(s: seq<nat>, js: seq<nat>): seq<nat>
    requires |js| == |s| && AreChoices(js)
  {
    ShuffleFrom(s, js, if s == [] then 0 else |s| - 1)
  }

  /** `Math.floor(Math.random() * (i + 1))` */
  function Choice(random: real, i: nat): (j: nat)
    requires 0.0 <= random < 1.0
    ensures j <= i
  {
    var j := (random * (i + 1) as real).Floor;
    assert 0.0 <= random * (i + 1) as real < (i + 1) as real;
    j
  }

  /** Every position gets a stretch of the same length, so all are equally likely. */
  lemma {:induction false} ChoicesAreEven(random: real, i: nat, j: nat)
    requires 0.0 <= random < 1.0 && j <= i
    ensures Choice(random, i) == j <==> j as real / (i + 1) as real <= random < (j + 1) as real / (i + 1) as real
  {
    var n := (i + 1) as real;
    var x := random * n;
    Scale(j as real, random, n);
    Scale((j + 1) as real, random, n);
  }

  lemma Scale(a: real, r: real, n: real)
    requires n > 0.0
    ensures a / n <= r <==> a <= r * n
  {
    var q := a / n;
    assert q * n == a;
    if q <= r { assert q * n <= r * n; }
    if r < q { assert r * n < q * n; }
  }

  predicate AreRandom(rs: seq<real>) {
    forall i :: 0 <= i < |rs| ==> 0.0 <= rs[i] < 1.0
  }

  function Choices(rs: seq<real>): seq<nat>
    requires AreRandom(rs)
  {
    seq(|rs|, i requires 0 <= i < |rs| => Choice(rs[i], i))
  }

  lemma FirstSwap(s: seq<nat>, js: seq<nat>, i: nat)
    requires |js| == |s| && AreChoices(js) && 0 < i < |s|
    ensures js[i] <= i && ShuffleFrom(s, js, i) == ShuffleFrom(Swap(s, i, js[i]), js, i - 1)
  {
  }

  /** The loop, on the array it changes; `rs[i]` is what `Math.random()` returns for position `i`. */
  method ShuffledIndices(len: nat, rs: seq<real>) returns (arr: array<nat>)
    requires |rs| == len && AreRandom(rs)
    ensures fresh(arr) && arr[..] == Shuffled(Identity(len), Choices(rs))
  {
    arr := new nat[len](i => i);
    ghost var js := Choices(rs);
    assert AreChoices(js) && |js| == len && forall k :: 0 <= k < len ==> js[k] == Choice(rs[k], k);
    assert arr[..] == Identity(len);
    if len == 0 {
      return;
    }
    var i := len - 1;
    hide ShuffleFrom, Choices, AreChoices;
    while i > 0
      invariant i < len && arr.Length == len
      invariant ShuffleFrom(arr[..], js, i) == Shuffled(Identity(len), js)
    {
      var j := Choice(rs[i], i);
      ghost var before := arr[..];
      FirstSwap(before, js, i);
      arr[i], arr[j] := arr[j], arr[i];
      assert arr[..] == Swap(before, i, j);
      i := i - 1;
    }
  }

  // ----- A permutation, whatever the choices -----

  lemma SwapKeepsElements(s: seq<nat>, i: nat, j: nat)
    requires i < |s| && j < |s|
    ensures multiset(Swap(s, i, j)) == multiset(s)
  {
  }

  lemma {:induction false} ShuffleKeepsElements(s: seq<nat>, js: seq<nat>, i: nat)
    requires |js| == |s| && AreChoices(js) && (i < |s| || i == 0)
    ensures |ShuffleFrom(s, js, i)| == |s| && multiset(ShuffleFrom(s, js, i)) == multiset(s)
    decreases i
  {
    if i > 0 {
      SwapKeepsElements(s, i, js[i]);
      ShuffleKeepsElements(Swap(s, i, js[i]), js, i - 1);
    }
  }

  // ----- Every permutation, by exactly one sequence of choices -----

  /** Later swaps leave a position alone. */
  lemma {:induction false} SettledPositions(s: seq<nat>, js: seq<nat>, i: nat, k: nat)
    requires |js| == |s| && AreChoices(js) && i < |s| && i < k < |s|
    ensures |ShuffleFrom(s, js, i)| == |s| && ShuffleFrom(s, js, i)[k] == s[k]
    decreases i
  {
    if i > 0 {
      SettledPositions(Swap(s, i, js[i]), js, i - 1, k);
    }
  }

  lemma SettledByChoice(s: seq<nat>, js: seq<nat>, i: nat)
    requires |js| == |s| && AreChoices(js) && 0 < i < |s|
    ensures |ShuffleFrom(s, js, i)| == |s| && js[i] <= i && ShuffleFrom(s, js, i)[i] == s[js[i]]
  {
    hide ShuffleFrom, AreChoices;
    FirstSwap(s, js, i);
    SettledPositions(Swap(s, i, js[i]), js, i - 1, i);
  }

  /** The last position gets the element at the position chosen for it, and the first choice is not made. */
  lemma {:induction false} LastIsChosen(s: seq<nat>, js: seq<nat>)
    requires |js| == |s| > 0 && AreChoices(js)
    ensures var r, n := Shuffled(s, js), |s|;
      && js[n - 1] < n && |r| == n
      && (n > 1 ==>
           && r[n - 1] == s[js[n - 1]]
           && r == ShuffleFrom(s[n - 1 := s[js[n - 1]]][js[n - 1] := s[n - 1]], js, n - 2))
      && (n == 1 ==> r == s)
  {
    if |s| > 1 {
      SettledByChoice(s, js, |s| - 1);
      assert s[|s| - 1 := s[js[|s| - 1]]][js[|s| - 1] := s[|s| - 1]] == Swap(s, |s| - 1, js[|s| - 1]);
    }
  }

  /** Whatever is chosen, every index from 0 on is there once. */
  lemma {:induction false} EveryIndexOnce(n: nat, js: seq<nat>, x: nat)
    requires |js| == n && AreChoices(js)
    ensures var r := Shuffled(Identity(n), js);
      |r| == n && multiset(r)[x] == (if x < n then 1 else 0)
  {
    ShuffleKeepsElements(Identity(n), js, if n == 0 then 0 else n - 1);
    IdentityHasEach(n, x);
  }

  lemma {:induction false} IdentityHasEach(n: nat, x: nat)
    ensures multiset(Identity(n))[x] == (if x < n then 1 else 0)
    decreases n
  {
    if n > 0 {
      assert Identity(n) == Identity(n - 1) + [n - 1];
      IdentityHasEach(n - 1, x);
    }
  }

  ghost predicate Distinct(s: seq<nat>) {
    forall i, j :: 0 <= i < j < |s| ==> s[i] != s[j]
  }

  lemma {:induction false} ChoicesAreDetermined(s: seq<nat>, js: seq<nat>, ks: seq<nat>, i: nat)
    requires Distinct(s) && |js| == |ks| == |s| && AreChoices(js) && AreChoices(ks) && i < |s|
    requires ShuffleFrom(s, js, i) == ShuffleFrom(s, ks, i)
    ensures forall k :: 0 < k <= i ==> js[k] == ks[k]
    decreases i
  {
    if i > 0 {
      SettledByChoice(s, js, i);
      SettledByChoice(s, ks, i);
      ChoicesAreDetermined(Swap(s, i, js[i]), js, ks, i - 1);
    }
  }

  lemma CancelRest(a: multiset<nat>, b: multiset<nat>, rest: multiset<nat>)
    requires a + rest == b + rest
    ensures a == b
  {
    assert (a + rest) - rest == a && (b + rest) - rest == b;
  }

  lemma PrefixHolds(s: seq<nat>, p: seq<nat>, i: nat) returns (j: nat)
    requires |p| == |s| && i < |s| && multiset(p) == multiset(s) && s[i + 1..] == p[i + 1..]
    ensures j <= i && s[j] == p[i]
  {
    assert s == s[..i + 1] + s[i + 1..] && p == p[..i + 1] + p[i + 1..];
    assert multiset(s) == multiset(s[..i + 1]) + multiset(s[i + 1..]);
    assert multiset(p) == multiset(p[..i + 1]) + multiset(p[i + 1..]);
    CancelRest(multiset(s[..i + 1]), multiset(p[..i + 1]), multiset(s[i + 1..]));
    assert p[..i + 1][i] in multiset(p[..i + 1]);
    j :| 0 <= j < |s[..i + 1]| && s[..i + 1][j] == p[i];
  }

  lemma {:induction false} ChoicesFor(s: seq<nat>, p: seq<nat>, i: nat) returns (js: seq<nat>)
    requires |p| == |s| && i < |s| && multiset(p) == multiset(s) && s[i + 1..] == p[i + 1..]
    ensures |js| == |s| && AreChoices(js) && ShuffleFrom(s, js, i) == p
    decreases i
  {
    if i == 0 {
      js := seq(|s|, _ => 0);
      var j := PrefixHolds(s, p, 0);
      assert s == [s[0]] + s[1..] && p == [p[0]] + p[1..];
    } else {
      var j := PrefixHolds(s, p, i);
      var t := Swap(s, i, j);
      SwapKeepsElements(s, i, j);
      assert t[i..] == p[i..] by {
        assert t[i..] == [t[i]] + t[i + 1..] && p[i..] == [p[i]] + p[i + 1..] && t[i + 1..] == s[i + 1..];
      }
      var ks := ChoicesFor(t, p, i - 1);
      js := ks[i := j];
      OtherChoicesDoNotMatter(t, ks, js, i - 1);
    }
  }

  lemma {:induction false} OtherChoicesDoNotMatter(s: seq<nat>, js: seq<nat>, ks: seq<nat>, i: nat)
    requires |js| == |ks| == |s| && AreChoices(js) && AreChoices(ks) && i < |s|
    requires forall k :: 0 < k <= i ==> js[k] == ks[k]
    ensures ShuffleFrom(s, js, i) == ShuffleFrom(s, ks, i)
    decreases i
  {
    if i > 0 {
      OtherChoicesDoNotMatter(Swap(s, i, js[i]), js, ks, i - 1);
    }
  }

  /** A sequence of choices that shuffles the first `n` numbers into `p`; the choice for position 0 is never made. */
  ghost predicate Makes(js: seq<nat>, p: seq<nat>, n: nat) {
    |js| == n && AreChoices(js) && Shuffled(Identity(n), js) == p
  }

  /**
   The shuffle is fair: among all sequences of choices, the results are exactly the permutations, and each of
   them comes from exactly one sequence.
  */
  lemma {:induction false} ShuffleIsFair(n: nat, p: seq<nat>)
    ensures (exists js :: Makes(js, p, n)) <==> multiset(p) == multiset(Identity(n))
    ensures forall js, ks :: Makes(js, p, n) && Makes(ks, p, n) ==> js == ks
  {
    var id := Identity(n);
    if js :| Makes(js, p, n) {
      ShuffleKeepsElements(id, js, if n == 0 then 0 else n - 1);
    }
    if multiset(p) == multiset(id) {
      assert |p| == |multiset(p)| == n;
      if n == 0 {
        assert Makes([], p, n);
      } else {
        var js := ChoicesFor(id, p, n - 1);
        assert Makes(js, p, n);
      }
    }
    forall js, ks | Makes(js, p, n) && Makes(ks, p, n) ensures js == ks {
      if n > 0 {
        ChoicesAreDetermined(id, js, ks, n - 1);
        assert js[0] == 0 == ks[0];
      }
    }
  }
}
