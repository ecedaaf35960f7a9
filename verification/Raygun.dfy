/**
 The token-cancelled timer chain of `frontend/components/RaygunButton.tsx`: opening shows the icons one by
 one, each step scheduling the next; closing or unmounting replaces the token, and a step whose token is
 no longer the current one does nothing.
*/
module Raygun {
  import opened Runs
  import opened Sums

  /** `SOCIAL_ITEMS.length` */
  const ITEMS: nat := 4

  /** A pending call of `fireNext(step)` made for `token`. */
  datatype Timer = Timer(token: nat, step: nat)

  /**
   Token objects are numbered in the order they are made; `next` is the number of the next one. `clicks` are the
   calls of `handleClick` that still wait for the audio.
  */
  datatype Gun = Gun(
    mounted: bool, open: bool, animating: bool, token: nat, next: nat, barrel: int, icons: seq<bool>,
    timers: seq<Timer>,
    clicks: nat)

  const NO_ICONS: seq<bool> := [false, false, false, false]

  // ----- The code -----

  /** After unmounting the icons are gone, and aiming at the first one throws before the timer is set. */
  function OpenSocial(g: Gun): Gun {
    if g.animating then g
    else if !g.mounted then g.(open := true, animating := true, token := g.next, next := g.next + 1, barrel := 0)
    else g.(open := true, animating := true, token := g.next, next := g.next + 1, icons := NO_ICONS, barrel := 0,
            timers := g.timers + [Timer(g.next, 0)])
  }

  function FireNext(g: Gun, t: Timer): Gun
    requires |g.icons| == ITEMS
  {
    if t.token != g.token then g
    else if t.step >= ITEMS then g.(animating := false)
    else g.(barrel := t.step, icons := g.icons[t.step := true], timers := g.timers + [Timer(t.token, t.step + 1)])
  }

  function CloseSocial(g: Gun): Gun {
    g.(open := false, animating := false, barrel := -1, token := g.next, next := g.next + 1,
       icons := if g.mounted then NO_ICONS else g.icons)
  }

  function HandleClick(g: Gun): Gun {
    if g.open then CloseSocial(g) else OpenSocial(g)
  }

  function Unmount(g: Gun): Gun {
    g.(mounted := false, token := g.next, next := g.next + 1)
  }

  function RemoveAt<T>(s: seq<T>, k: nat): seq<T>
    requires k < |s|
  {
    s[..k] + s[k + 1..]
  }

  // ----- Steps -----

  /** Pending timers may fire in any order; a click acts when the audio is ready, by then the button may be gone. */
  datatype Event = Click | ClickActs | TimerFires(k: nat) | Unmounts

  predicate Enabled(g: Gun, e: Event) {
    match e
    case Click => g.mounted
    case ClickActs => g.clicks > 0
    case TimerFires(k) => k < |g.timers| && |g.icons| == ITEMS
    case Unmounts => g.mounted
  }

  function Step(g: Gun, e: Event): Gun
    requires Enabled(g, e)
  {
    match e
    case Click => g.(clicks := g.clicks + 1)
    case ClickActs => HandleClick(g.(clicks := g.clicks - 1))
    case TimerFires(k) => FireNext(g.(timers := RemoveAt(g.timers, k)), g.timers[k])
    case Unmounts => Unmount(g)
  }

  const INITIAL: Gun := Gun(true, false, false, 0, 1, -1, NO_ICONS, [], 0)

  // ----- The invariant -----

  predicate Live(g: Gun, k: nat) {
    k < |g.timers| && g.timers[k].token == g.token
  }

  /** The icons shown are the first `n`, and the barrel points at the last of them. */
  ghost predicate Shows(g: Gun, n: nat) {
    && n <= ITEMS && |g.icons| == ITEMS
    && (forall j :: 0 <= j < ITEMS ==> (g.icons[j] <==> j < n))
    && g.barrel == (if n == 0 then 0 else n - 1)
  }

  ghost predicate TokensKnown(g: Gun) {
    && g.token < g.next
    && forall k :: 0 <= k < |g.timers| ==> g.timers[k].token < g.next
  }

  ghost predicate AtMostOneLive(g: Gun) {
    forall k: nat, l: nat :: Live(g, k) && Live(g, l) ==> k == l
  }

  ghost predicate Inv(g: Gun) {
    && |g.icons| == ITEMS
    && TokensKnown(g)
    && AtMostOneLive(g)
    && (g.animating ==> g.open)
    && (forall k: nat :: Live(g, k) ==> g.mounted && g.open && g.animating && Shows(g, g.timers[k].step))
    && (g.mounted ==>
         && (g.animating ==> exists k: nat :: Live(g, k))
         && (!g.open ==> g.icons == NO_ICONS && g.barrel == -1)
         && (g.open && !g.animating ==> Shows(g, ITEMS)))
  }

  lemma ClickKeepsInv(g: Gun)
    requires Inv(g)
    ensures Inv(HandleClick(g))
  {
    var g' := HandleClick(g);
    if !g.mounted {
      assert forall k: nat :: !Live(g, k);
      assert forall k: nat :: !Live(g', k);
    } else if !g.open {
      assert !g.animating;
      assert Live(g', |g.timers|);
      assert forall k: nat :: Live(g', k) ==> k == |g.timers|;
    } else {
      assert forall k: nat :: !Live(g', k);
    }
  }

  lemma ClicksKeepInv(g: Gun, clicks: nat)
    requires Inv(g)
    ensures Inv(g.(clicks := clicks))
  {
    var g' := g.(clicks := clicks);
    assert forall k: nat :: Live(g', k) <==> Live(g, k);
    assert forall n: nat :: Shows(g', n) <==> Shows(g, n);
  }

  lemma StaleKeepsInv(g: Gun, k: nat)
    requires Inv(g) && k < |g.timers| && g.timers[k].token != g.token
    ensures Inv(g.(timers := RemoveAt(g.timers, k)))
  {
    var g' := g.(timers := RemoveAt(g.timers, k));
    forall l: nat | Live(g', l) ensures Live(g, if l < k then l else l + 1) {
    }
    if l: nat :| Live(g, l) {
      assert Live(g', if l < k then l else l - 1);
    }
  }

  lemma LiveKeepsInv(g: Gun, k: nat)
    requires Inv(g) && Live(g, k)
    ensures Inv(Step(g, TimerFires(k)))
  {
    var g', step := Step(g, TimerFires(k)), g.timers[k].step;
    var rest := RemoveAt(g.timers, k);
    forall l | 0 <= l < |rest| ensures rest[l].token != g.token && rest[l].token < g.next {
      var m := if l < k then l else l + 1;
      assert rest[l] == g.timers[m];
      assert !Live(g, m);
    }
    if step < ITEMS {
      assert g'.timers == rest + [Timer(g.token, step + 1)];
      assert Live(g', |rest|);
      assert forall l: nat :: Live(g', l) ==> l == |rest|;
      assert Shows(g', step + 1);
    } else {
      assert g'.timers == rest;
      assert forall l: nat :: !Live(g', l);
    }
  }

  lemma {:induction false} StepKeepsInv(g: Gun, e: Event)
    requires Inv(g) && Enabled(g, e)
    ensures Inv(Step(g, e))
  {
    match e
    case Click => ClicksKeepInv(g, g.clicks + 1);
    case ClickActs =>
      ClicksKeepInv(g, g.clicks - 1);
      ClickKeepsInv(g.(clicks := g.clicks - 1));
    case TimerFires(k) =>
      if g.timers[k].token == g.token { LiveKeepsInv(g, k); } else { StaleKeepsInv(g, k); }
    case Unmounts =>
      assert forall k: nat :: !Live(Unmount(g), k);
  }

  lemma ReachableInv(g: Gun)
    requires Reachable(Step, INITIAL, g)
    ensures Inv(g)
  {
    var es :| IsRun(Step, INITIAL, es, g);
    forall t, e | Inv(t) && Step.requires(t, e) ensures Inv(Step(t, e)) {
      StepKeepsInv(t, e);
    }
    assert Inv(INITIAL);
    RunKeeps(Step, Inv, INITIAL, es, g);
  }

  // ----- What every run keeps -----

  /**
   Under every interleaving of clicks and timers of a mounted button: closed means not animating and no icon;
   a continuation of the current chain is pending exactly while animating, and only one; while it is, the
   icons shown are the first ones in order; and open without animation means all icons are shown.
  */
  lemma {:induction false} ChainIsSound(g: Gun)
    requires Reachable(Step, INITIAL, g) && g.mounted
    ensures !g.open ==> !g.animating && g.icons == NO_ICONS && g.barrel == -1
    ensures g.animating <==> exists k: nat :: Live(g, k)
    ensures forall k: nat, l: nat :: Live(g, k) && Live(g, l) ==> k == l
    ensures forall k: nat :: Live(g, k) ==> Shows(g, g.timers[k].step)
    ensures g.open && !g.animating ==> Shows(g, ITEMS)
  {
    ReachableInv(g);
  }

  /** After unmounting nothing is live any more, whatever timers are still pending and whatever clicks still act. */
  lemma NothingLivesAfterUnmount(g: Gun, k: nat)
    requires Reachable(Step, INITIAL, g) && !g.mounted
    ensures !Live(g, k)
  {
    ReachableInv(g);
  }

  /**
   A click that acts always toggles, also after unmounting: the early return of `openSocial` is never taken.
   While mounted, opening starts a new chain.
  */
  lemma ClickAlwaysActs(g: Gun)
    requires Reachable(Step, INITIAL, g)
    ensures HandleClick(g).open != g.open
    ensures g.mounted && !g.open ==> HandleClick(g).animating && Live(HandleClick(g), |g.timers|)
  {
    ReachableInv(g);
  }

  // ----- One opening -----

  /** A closed button is clicked: no icon is shown yet, and the chain waits for its first timer. */
  lemma {:induction false} Opens(g: Gun)
    requires Reachable(Step, INITIAL, g) && g.mounted && !g.open && g.clicks > 0
    ensures var o := Step(g, ClickActs);
      && o.open && o.animating && o.barrel == 0 && o.icons == [false, false, false, false]
      && o.token !in (set t | t in g.timers :: t.token) && o.clicks == g.clicks - 1
      && o.timers == g.timers + [Timer(o.token, 0)]
  {
    ReachableInv(g);
  }

  /**
   Then five timers of the chain, each set by the one before, show one icon after the other, in their order, until
   all four are shown and the chain ends.
  */
  lemma {:induction false} OpeningShowsAll(g: Gun) returns (s: seq<Gun>)
    requires Reachable(Step, INITIAL, g) && g.mounted && !g.open && g.clicks > 0
    ensures |s| == 6 && s[0] == Step(g, ClickActs)
    ensures forall k :: 0 <= k < 5 ==> Fires(s[k], |g.timers|, s[k + 1])
    ensures s[0].icons == [false, false, false, false] && s[0].animating
    ensures s[1].icons == [true, false, false, false] && s[1].barrel == 0 && s[1].animating
    ensures s[2].icons == [true, true, false, false] && s[2].barrel == 1 && s[2].animating
    ensures s[3].icons == [true, true, true, false] && s[3].barrel == 2 && s[3].animating
    ensures s[4].icons == [true, true, true, true] && s[4].barrel == 3 && s[4].animating
    ensures s[5].icons == s[4].icons && s[5].barrel == 3 && s[5].open && !s[5].animating && s[5].timers == g.timers
  {
    Opens(g);
    var s0 := Step(g, ClickActs);
    hide Step, Fires;
    var s1 := ChainStep(s0, g.timers, 0);
    var s2 := ChainStep(s1, g.timers, 1);
    var s3 := ChainStep(s2, g.timers, 2);
    var s4 := ChainStep(s3, g.timers, 3);
    var s5 := ChainStep(s4, g.timers, 4);
    s := [s0, s1, s2, s3, s4, s5];
  }

  ghost predicate Fires(g: Gun, k: nat, g': Gun) {
    Enabled(g, TimerFires(k)) && g' == Step(g, TimerFires(k))
  }

  lemma ChainStep(g: Gun, others: seq<Timer>, k: nat) returns (f: Gun)
    requires k <= 4 && g.timers == others + [Timer(g.token, k)] && |g.icons| == 4
    ensures Fires(g, |others|, f)
    ensures f.open == g.open && f.token == g.token && |f.icons| == 4
    ensures k < 4 ==> f.timers == others + [Timer(g.token, k + 1)] && f.icons == g.icons[k := true]
    ensures k < 4 ==> f.barrel == k && f.animating == g.animating
    ensures k == 4 ==> f.timers == others && f.icons == g.icons && f.barrel == g.barrel && !f.animating
  {
    assert RemoveAt(g.timers, |others|) == others;
    f := Step(g, TimerFires(|others|));
  }

  /** Closing, at any moment, hides all icons and leaves pending timers that change nothing but their own number. */
  lemma {:induction false} ClosingStopsTheChain(g: Gun, k: nat)
    requires Reachable(Step, INITIAL, g) && g.mounted && g.open && g.clicks > 0 && k < |g.timers|
    ensures var c := Step(g, ClickActs);
      && !c.open && !c.animating && c.barrel == -1 && c.icons == [false, false, false, false] && c.timers == g.timers
      && Step(c, TimerFires(k)) == c.(timers := c.timers[..k] + c.timers[k + 1..])
  {
    ReachableInv(g);
  }

  // ----- Progress -----

  /** The timer callbacks a timer can still cause, itself included. */
  function Remaining(t: Timer): nat {
    if t.step <= ITEMS then ITEMS - t.step + 1 else 1
  }

  lemma {:induction false} SumWithout(s: seq<Timer>, k: nat)
    requires k < |s|
    ensures Sum(Remaining, RemoveAt(s, k)) + Remaining(s[k]) == Sum(Remaining, s)
  {
    SumAppend(Remaining, s[..k], s[k + 1..]);
    SumAppend(Remaining, s[..k], s[k..]);
    assert s == s[..k] + s[k..] && s[k..][1..] == s[k + 1..];
  }

  /** Every timer callback uses up work, so without clicks a run of callbacks ends. */
  lemma TimersUseWork(g: Gun, k: nat)
    requires Enabled(g, TimerFires(k))
    ensures Sum(Remaining, Step(g, TimerFires(k)).timers) < Sum(Remaining, g.timers)
  {
    var t := g.timers[k];
    var rest := RemoveAt(g.timers, k);
    SumWithout(g.timers, k);
    if t.token == g.token && t.step < ITEMS {
      SumAppend(Remaining, rest, [Timer(t.token, t.step + 1)]);
      assert Sum(Remaining, [Timer(t.token, t.step + 1)]) == Remaining(Timer(t.token, t.step + 1)) + Sum(Remaining, []);
    }
  }

  /** Once all timers have fired, an open button shows every icon. */
  lemma OpenEndsComplete(g: Gun)
    requires Reachable(Step, INITIAL, g) && g.mounted && g.timers == []
    ensures !g.animating && (g.open ==> Shows(g, ITEMS))
  {
    ChainIsSound(g);
    assert forall k: nat :: !Live(g, k);
  }

  // ----- The component -----

  /**
   The component with its pending timers and clicks. As its state is reachable, every theorem about runs holds
   of it.
  */
  class Button {
    var mounted: bool
    var openRef: bool
    var animRef: bool
    var tokenRef: nat
    var nextToken: nat
    var barrelIdxRef: int
    var icons: seq<bool>
    var timers: seq<Timer>
    var clicks: nat

    ghost function View(): Gun
      reads this
    {
      Gun(mounted, openRef, animRef, tokenRef, nextToken, barrelIdxRef, icons, timers, clicks)
    }

    ghost predicate Valid()
      reads this
    {
      Reachable(Step, INITIAL, View())
    }

    /** What any sequence of clicks and timers leaves behind, in terms of the fields. */
    lemma IsSound()
      requires Valid() && mounted
      ensures !openRef ==> !animRef && icons == NO_ICONS && barrelIdxRef == -1
      ensures animRef <==> exists k: nat :: Live(View(), k)
      ensures forall k: nat, l: nat :: Live(View(), k) && Live(View(), l) ==> k == l
      ensures openRef && !animRef ==> icons == seq(ITEMS, _ => true)
    {
      ChainIsSound(View());
    }

    constructor ()
      ensures Valid() && View() == INITIAL
    {
      mounted, openRef, animRef, tokenRef, nextToken := true, false, false, 0, 1;
      barrelIdxRef, icons, timers, clicks := -1, NO_ICONS, [], 0;
      new;
      InitialIsReachable(Step, INITIAL);
    }

    method NewToken()
      modifies this`tokenRef, this`nextToken
      ensures tokenRef == old(nextToken) && nextToken == old(nextToken) + 1
    {
      tokenRef, nextToken := nextToken, nextToken + 1;
    }

    method SnapIcons()
      modifies this`icons
      ensures icons == if mounted then NO_ICONS else old(icons)
    {
      if mounted {
        icons := NO_ICONS;
      }
    }

    method Open()
      modifies this
      ensures View() == OpenSocial(old(View()))
      ensures old(animRef) ==> View() == old(View())
      ensures !old(animRef) ==>
        && openRef && animRef && barrelIdxRef == 0 && tokenRef == old(nextToken)
        && icons == (if mounted then [false, false, false, false] else old(icons))
        && timers == (if mounted then old(timers) + [Timer(tokenRef, 0)] else old(timers))
    {
      if animRef {
        return;
      }
      openRef, animRef := true, true;
      NewToken();
      SnapIcons();
      barrelIdxRef := 0;
      if mounted {
        timers := timers + [Timer(tokenRef, 0)];
      }
    }

    method Fire(t: Timer)
      requires |icons| == ITEMS
      modifies this
      ensures View() == FireNext(old(View()), t)
      ensures tokenRef == old(tokenRef) && openRef == old(openRef)
      ensures if t.token != old(tokenRef) then View() == old(View())
        else if t.step < 4 then
          && icons == old(icons)[t.step := true] && barrelIdxRef == t.step && animRef == old(animRef)
          && timers == old(timers) + [Timer(t.token, t.step + 1)]
        else !animRef && icons == old(icons) && barrelIdxRef == old(barrelIdxRef) && timers == old(timers)
    {
      if tokenRef != t.token {
        return;
      }
      if t.step >= ITEMS {
        animRef := false;
        return;
      }
      barrelIdxRef := t.step;
      icons := icons[t.step := true];
      timers := timers + [Timer(t.token, t.step + 1)];
    }

    method Close()
      modifies this
      ensures View() == CloseSocial(old(View()))
      ensures !openRef && !animRef && barrelIdxRef == -1 && tokenRef == old(nextToken) && timers == old(timers)
      ensures icons == if mounted then [false, false, false, false] else old(icons)
    {
      openRef, animRef, barrelIdxRef := false, false, -1;
      NewToken();
      SnapIcons();
    }

    method Clicked()
      requires Valid() && mounted
      modifies this
      ensures Valid() && View() == Step(old(View()), Click)
      ensures clicks == old(clicks) + 1 && openRef == old(openRef) && timers == old(timers) && icons == old(icons)
    {
      assert Enabled(View(), Click);
      ReachableStep(Step, INITIAL, View(), Click);
      clicks := clicks + 1;
    }

    /** `handleClick` behind its `await`. */
    method AudioReady()
      requires Valid() && clicks > 0
      modifies this
      ensures Valid() && View() == Step(old(View()), ClickActs)
      ensures clicks == old(clicks) - 1 && tokenRef == old(nextToken) && mounted == old(mounted)
      ensures old(openRef) ==> !openRef && !animRef && barrelIdxRef == -1 && timers == old(timers)
      ensures !old(openRef) ==> openRef && animRef && barrelIdxRef == 0
      ensures !old(openRef) && mounted ==> timers == old(timers) + [Timer(tokenRef, 0)]
      ensures mounted ==> icons == [false, false, false, false]
    {
      assert Enabled(View(), ClickActs);
      ReachableStep(Step, INITIAL, View(), ClickActs);
      ReachableInv(View());
      clicks := clicks - 1;
      if openRef {
        Close();
      } else {
        Open();
      }
    }

    method TimerElapsed(k: nat)
      requires Valid() && Enabled(View(), TimerFires(k))
      modifies this
      ensures Valid() && View() == Step(old(View()), TimerFires(k))
    {
      ReachableStep(Step, INITIAL, View(), TimerFires(k));
      var t := timers[k];
      timers := RemoveAt(timers, k);
      Fire(t);
    }

    method Unmounted()
      requires Valid() && mounted
      modifies this
      ensures Valid() && View() == Step(old(View()), Unmounts)
      ensures !mounted && tokenRef == old(nextToken) && nextToken == old(nextToken) + 1
      ensures timers == old(timers) && clicks == old(clicks)
    {
      assert Enabled(View(), Unmounts);
      ReachableStep(Step, INITIAL, View(), Unmounts);
      mounted := false;
      NewToken();
    }
  }
}
