/** The bag of quotes of `frontend/components/HiddenEntryOverlay.tsx`: draw without replacement, refill when empty. */
module QuoteBag {
  import opened Sequences
  import opened Shuffle

  function Reverse(s: seq<nat>): seq<nat> {
    if s == [] then [] else [s[|s| - 1]] + Reverse(s[..|s| - 1])
  }

  lemma {:induction false} ReverseKeepsElements(s: seq<nat>)
    ensures |Reverse(s)| == |s| && multiset(Reverse(s)) == multiset(s)
  {
    if s != [] {
      var t := s[..|s| - 1];
      ReverseKeepsElements(t);
      assert s == t + [s[|s| - 1]];
    }
  }

  ghost predicate IsPermutation(s: seq<nat>, n: nat) {
    multiset(s) == multiset(Identity(n))
  }

  /** The draws, cut into blocks of `n` from the start, are permutations of the quotes. */
  ghost predicate Blocks(n: nat, draws: seq<nat>)
    decreases |draws|
  {
    n > 0 && (draws == [] || (|draws| >= n && IsPermutation(draws[..n], n) && Blocks(n, draws[n..])))
  }

  lemma {:induction false} AddBlock(n: nat, draws: seq<nat>, block: seq<nat>)
    requires Blocks(n, draws) && |block| == n && IsPermutation(block, n)
    ensures Blocks(n, draws + block)
    decreases |draws|
  {
    if draws == [] {
      assert draws + block == block && block[..n] == block && block[n..] == [];
    } else {
      AddBlock(n, draws[n..], block);
      assert (draws + block)[..n] == draws[..n];
      assert (draws + block)[n..] == draws[n..] + block;
    }
  }

  lemma {:induction false} OneOfEach(n: nat, x: nat)
    requires x < n
    ensures multiset(Identity(n))[x] == 1
    decreases n
  {
    assert Identity(n) == Identity(n - 1) + [n - 1];
    if x < n - 1 {
      OneOfEach(n - 1, x);
    } else {
      assert n - 1 !in Identity(n - 1);
    }
  }

  /** After any number `m` of draws, every quote has been drawn `m / n` times or once more. */
  lemma {:induction false} DrawsAreFair(n: nat, draws: seq<nat>, m: nat, x: nat)
    requires Blocks(n, draws) && m <= |draws| && x < n
    ensures m / n <= multiset(draws[..m])[x] <= m / n + 1
    decreases m
  {
    OneOfEach(n, x);
    hide Identity;
    Division(m, n);
    if draws == [] {
      assert draws[..m] == [];
    } else if m < n {
      PartOfBlock(draws, m, n, x);
    } else {
      DrawsAreFair(n, draws[n..], m - n, x);
      assert draws[..m] == draws[..n] + draws[n..][..m - n];
    }
  }

  lemma Division(m: nat, n: nat)
    requires n > 0
    ensures if m < n then m / n == 0 else m / n == (m - n) / n + 1
  {
    if m < n {
      QuotientIs(m, n, 0, m);
    } else {
      var q, r := (m - n) / n, (m - n) % n;
      assert m == n * (q + 1) + r;
      QuotientIs(m, n, q + 1, r);
    }
  }

  lemma QuotientIs(m: nat, n: nat, q: nat, r: nat)
    requires m == n * q + r && r < n
    ensures m / n == q
  {
    var p := m / n;
    if p < q { OneMore(n, p, q); }
    if q < p { OneMore(n, q, p); }
  }

  lemma OneMore(n: nat, a: nat, b: nat)
    requires a < b
    ensures n * a + n <= n * b
  {
    assert n * (a + 1) <= n * b;
  }

  lemma PartOfBlock(draws: seq<nat>, m: nat, n: nat, x: nat)
    requires m <= n <= |draws|
    ensures multiset(draws[..m])[x] <= multiset(draws[..n])[x]
  {
    assert draws[..n] == draws[..m] + draws[m..n];
  }

  /** One opening of the overlay: `remaining` is the bag, `drawn` the quotes shown so far. */
  class Session {
    const quotes: nat
    var remaining: seq<nat>
    ghost var drawn: seq<nat>

    /** What has been drawn and what the bag will still give, in order, is made of whole permutations. */
    ghost predicate Valid()
      reads this
    {
      Blocks(quotes, drawn + Reverse(remaining))
    }

    /** At any time no quote has been drawn more than once ahead of another. */
    lemma IsFair(x: nat)
      requires Valid() && x < quotes
      ensures |drawn| / quotes <= multiset(drawn)[x] <= |drawn| / quotes + 1
    {
      SessionIsFair(quotes, drawn, remaining, x);
    }

    /** The first quote is drawn when the overlay opens. */
    constructor (quotes: nat, rs: seq<real>)
      requires quotes > 0 && |rs| == quotes && AreRandom(rs)
      ensures Valid() && this.quotes == quotes
      ensures var bag := Shuffled(Identity(quotes), Choices(rs));
        |bag| == quotes && drawn == [bag[quotes - 1]] && remaining == bag[..quotes - 1]
    {
      this.quotes := quotes;
      remaining, drawn := [], [];
      new;
      var first := NextQuote(rs);
      ShuffleKeepsElements(Identity(quotes), Choices(rs), quotes - 1);
    }

    /** A new shuffled bag in place of the empty one. */
    method Refill(rs: seq<real>)
      requires Valid() && remaining == [] && |rs| == quotes && AreRandom(rs)
      modifies this`remaining
      ensures Valid() && |remaining| == quotes && remaining == Shuffled(Identity(quotes), Choices(rs))
    {
      var arr := ShuffledIndices(quotes, rs);
      ghost var before := drawn + Reverse(remaining);
      remaining := arr[..];
      ShuffleKeepsElements(Identity(quotes), Choices(rs), quotes - 1);
      hide Identity, ShuffleFrom, Blocks;
      ReverseKeepsElements(remaining);
      assert before == drawn;
      AddBlock(quotes, drawn, Reverse(remaining));
    }

    /** A wrong password: refill the empty bag, then take the last index out of it. */
    method NextQuote(rs: seq<real>) returns (next: nat)
      requires Valid() && |rs| == quotes && AreRandom(rs)
      modifies this`remaining, this`drawn
      ensures Valid() && drawn == old(drawn) + [next]
      ensures var bag := if old(remaining) == [] then Shuffled(Identity(quotes), Choices(rs)) else old(remaining);
        bag != [] && next == bag[|bag| - 1] && remaining == bag[..|bag| - 1]
    {
      assert quotes > 0;
      if |remaining| == 0 {
        Refill(rs);
      }
      hide Blocks;
      var last := |remaining| - 1;
      next := remaining[last];
      ReverseLast(drawn, remaining);
      remaining := remaining[..last];
      drawn := drawn + [next];
    }
  }

  lemma ReverseLast(drawn: seq<nat>, bag: seq<nat>)
    requires bag != []
    ensures drawn + Reverse(bag) == (drawn + [bag[|bag| - 1]]) + Reverse(bag[..|bag| - 1])
  {
    Regroup(drawn, [bag[|bag| - 1]], Reverse(bag[..|bag| - 1]), []);
  }

  /** Over any number of draws of a session, no quote falls behind or gets ahead by more than one. */
  lemma SessionIsFair(n: nat, drawn: seq<nat>, remaining: seq<nat>, x: nat)
    requires Blocks(n, drawn + Reverse(remaining)) && x < n
    ensures |drawn| / n <= multiset(drawn)[x] <= |drawn| / n + 1
  {
    DrawsAreFair(n, drawn + Reverse(remaining), |drawn|, x);
    assert (drawn + Reverse(remaining))[..|drawn|] == drawn;
  }
}
