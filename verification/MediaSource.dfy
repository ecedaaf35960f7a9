/**
 Who revokes which blob URL in `frontend/lib/hooks/useAuthedMediaSrc.ts`: every change of the url runs the
 cleanup of the previous effect and starts a new one; responses arrive later, in any order.
*/
module MediaSource {
  import opened Options
  import opened Runs
  import opened Text

  /** `fetchMediaObjectUrl`: the request, then the blob URL it made on its way to the callback, then nothing. */
  datatype Request = Fetching | Created(blob: nat) | Settled

  /** One run of the effect for a url that has to be fetched. */
  datatype Effect = Effect(cancelled: bool, objectUrl: Option<nat>, request: Request)

  datatype Src = Undefined | Passed(url: string) | Blob(blob: nat)

  /**
   Blob URLs are numbered as they are made; `alive` are those not revoked, `revoked` counts the calls of
   `revokeObjectURL`.
  */
  datatype Hook = Hook(
    mounted: bool, src: Src, effects: seq<Effect>, current: Option<nat>,
    alive: set<nat>, revoked: multiset<nat>, next: nat)

  // ----- The code -----

  predicate PassesThrough(url: string) {
    StartsWith(url, "blob:") || StartsWith(url, "data:")
  }

  function Revoke(h: Hook, blob: nat): Hook {
    h.(alive := h.alive - {blob}, revoked := h.revoked + multiset{blob})
  }

  function SetEffect(h: Hook, i: nat, e: Effect): Hook
    requires i < |h.effects|
  {
    h.(effects := h.effects[i := e])
  }

  /** The function the effect returned, when it returned one. */
  function Cleanup(h: Hook): Hook
    requires h.current.Some? ==> h.current.value < |h.effects|
  {
    match h.current
    case None => h
    case Some(i) =>
      var e := h.effects[i];
      var done := SetEffect(h, i, e.(cancelled := true)).(current := None);
      match e.objectUrl
      case None => done
      case Some(blob) => Revoke(done, blob)
  }

  function StartEffect(h: Hook, url: Option<string>): Hook {
    match url
    case None => h.(src := Undefined)
    case Some(u) =>
      if u == "" then h.(src := Undefined)
      else if PassesThrough(u) then h.(src := Passed(u))
      else h.(effects := h.effects + [Effect(false, None, Fetching)], current := Some(|h.effects|))
  }

  function Create(h: Hook, i: nat): Hook
    requires i < |h.effects|
  {
    SetEffect(h, i, h.effects[i].(request := Created(h.next))).(alive := h.alive + {h.next}, next := h.next + 1)
  }

  /** The `then` callback. */
  function Deliver(h: Hook, i: nat): Hook
    requires i < |h.effects| && h.effects[i].request.Created?
  {
    var e := h.effects[i];
    var blob := e.request.blob;
    if e.cancelled then Revoke(SetEffect(h, i, e.(request := Settled)), blob)
    else SetEffect(h, i, e.(objectUrl := Some(blob), request := Settled)).(src := Blob(blob))
  }

  /** The `catch` callback. */
  function Reject(h: Hook, i: nat): Hook
    requires i < |h.effects|
  {
    var e := h.effects[i];
    var settled := SetEffect(h, i, e.(request := Settled));
    if e.cancelled then settled else settled.(src := Undefined)
  }

  // ----- Steps -----

  datatype Event =
    | UrlChanges(url: Option<string>)
    | Unmounts
    | Responds(i: nat)
    | Delivers(i: nat)
    | Fails(i: nat)

  predicate Enabled(h: Hook, e: Event) {
    match e
    case UrlChanges(_) => h.mounted && (h.current.Some? ==> h.current.value < |h.effects|)
    case Unmounts => h.mounted && (h.current.Some? ==> h.current.value < |h.effects|)
    case Responds(i) => i < |h.effects| && h.effects[i].request.Fetching?
    case Delivers(i) => i < |h.effects| && h.effects[i].request.Created?
    case Fails(i) => i < |h.effects| && h.effects[i].request.Fetching?
  }

  function Step(h: Hook, e: Event): Hook
    requires Enabled(h, e)
  {
    match e
    case UrlChanges(url) => StartEffect(Cleanup(h), url)
    case Unmounts => Cleanup(h).(mounted := false)
    case Responds(i) => Create(h, i)
    case Delivers(i) => Deliver(h, i)
    case Fails(i) => Reject(h, i)
  }

  const INITIAL: Hook := Hook(true, Undefined, [], None, {}, multiset{}, 0)

  // ----- Ownership -----

  /**
   The blob URL effect `i` is responsible for: the one on its way, or the one shown while it is the current
   effect.
  */
  function Owned(h: Hook, i: nat): Option<nat>
    requires i < |h.effects|
  {
    var e := h.effects[i];
    if e.request.Created? then Some(e.request.blob)
    else if h.current == Some(i) then e.objectUrl
    else None
  }

  ghost predicate Owns(h: Hook, i: nat, blob: nat) {
    i < |h.effects| && Owned(h, i) == Some(blob)
  }

  ghost predicate EffectInv(h: Hook, i: nat)
    requires i < |h.effects|
  {
    var e := h.effects[i];
    && (e.cancelled <==> h.current != Some(i))
    && (e.objectUrl.Some? ==> e.request.Settled?)
  }

  /** Every blob URL made is either alive and owned by exactly one effect, or revoked exactly once. */
  ghost predicate Inv(h: Hook) {
    && (h.current.Some? ==> h.mounted && h.current.value < |h.effects|)
    && (forall i :: 0 <= i < |h.effects| ==> EffectInv(h, i))
    && (forall i: nat, blob: nat :: Owns(h, i, blob) ==> blob in h.alive)
    && (forall blob: nat :: blob in h.alive ==> exists i: nat :: Owns(h, i, blob))
    && (forall i: nat, j: nat, blob: nat :: Owns(h, i, blob) && Owns(h, j, blob) ==> i == j)
    && (forall blob: nat :: blob in h.alive ==> blob < h.next && h.revoked[blob] == 0)
    && (forall blob: nat :: blob < h.next && blob !in h.alive ==> h.revoked[blob] == 1)
    && (forall blob: nat :: blob in h.revoked ==> blob < h.next)
  }

  lemma CleanupKeepsInv(h: Hook)
    requires Inv(h)
    ensures Inv(Cleanup(h)) && Cleanup(h).current == None
  {
    var h' := Cleanup(h);
    if h.current.Some? {
      var c := h.current.value;
      var gone := if h.effects[c].request.Settled? then h.effects[c].objectUrl else None;
      assert EffectInv(h, c);
      assert gone.Some? ==> Owns(h, c, gone.value);
      forall i: nat, blob: nat ensures Owns(h', i, blob) <==> Owns(h, i, blob) && gone != Some(blob) {
        assert i < |h.effects| ==> EffectInv(h, i);
      }
      OwnersRemain(h, h', gone);
      forall i | 0 <= i < |h'.effects| ensures EffectInv(h', i) {
        assert EffectInv(h, i);
      }
    }
  }

  /** Taking one blob URL away from its owner and revoking it leaves the rest in order. */
  lemma {:induction false} OwnersRemain(h: Hook, h': Hook, gone: Option<nat>)
    requires Inv(h) && (gone.Some? ==> gone.value in h.alive)
    requires forall i: nat, blob: nat :: Owns(h', i, blob) <==> Owns(h, i, blob) && gone != Some(blob)
    requires h'.next == h.next
    requires h'.alive == h.alive - (if gone.Some? then {gone.value} else {})
    requires h'.revoked == h.revoked + (if gone.Some? then multiset{gone.value} else multiset{})
    ensures forall i: nat, blob: nat :: Owns(h', i, blob) ==> blob in h'.alive
    ensures forall blob: nat :: blob in h'.alive ==> exists i: nat :: Owns(h', i, blob)
    ensures forall i: nat, j: nat, blob: nat :: Owns(h', i, blob) && Owns(h', j, blob) ==> i == j
    ensures forall blob: nat :: blob in h'.alive ==> blob < h'.next && h'.revoked[blob] == 0
    ensures forall blob: nat :: blob < h'.next && blob !in h'.alive ==> h'.revoked[blob] == 1
    ensures forall blob: nat :: blob in h'.revoked ==> blob < h'.next
  {
    forall blob: nat | blob in h'.alive ensures exists i: nat :: Owns(h', i, blob) {
      var i: nat :| Owns(h, i, blob);
      assert Owns(h', i, blob);
    }
  }

  lemma StartKeepsInv(h: Hook, url: Option<string>)
    requires Inv(h) && h.mounted && h.current == None
    ensures Inv(StartEffect(h, url))
  {
    var h' := StartEffect(h, url);
    forall i: nat, blob: nat ensures Owns(h', i, blob) <==> Owns(h, i, blob) {
    }
    OwnersRemain(h, h', None);
    forall i | 0 <= i < |h'.effects| ensures EffectInv(h', i) {
      if i < |h.effects| { assert EffectInv(h, i); }
    }
  }

  lemma CreateKeepsInv(h: Hook, i: nat)
    requires Inv(h) && i < |h.effects| && h.effects[i].request.Fetching?
    ensures Inv(Create(h, i))
  {
    var h' := Create(h, i);
    assert EffectInv(h, i);
    forall j: nat, blob: nat ensures Owns(h', j, blob) <==> Owns(h, j, blob) || (j == i && blob == h.next) {
    }
    forall j | 0 <= j < |h'.effects| ensures EffectInv(h', j) {
      assert EffectInv(h, j);
    }
    forall blob: nat | blob in h'.alive ensures exists j: nat :: Owns(h', j, blob) {
      if blob == h.next {
        assert Owns(h', i, blob);
      } else {
        var j: nat :| Owns(h, j, blob);
        assert Owns(h', j, blob);
      }
    }
    assert h.next !in h.revoked;
  }

  lemma DeliverKeepsInv(h: Hook, i: nat)
    requires Inv(h) && i < |h.effects| && h.effects[i].request.Created?
    ensures Inv(Deliver(h, i))
  {
    var h' := Deliver(h, i);
    var blob := h.effects[i].request.blob;
    var gone := if h.effects[i].cancelled then Some(blob) else None;
    assert EffectInv(h, i) && Owns(h, i, blob);
    forall j: nat, b: nat ensures Owns(h', j, b) <==> Owns(h, j, b) && gone != Some(b) {
      if j == i {
        assert Owned(h', i) == (if h.effects[i].cancelled then None else Some(blob));
      } else {
        assert Owns(h', j, b) <==> Owns(h, j, b);
      }
    }
    OwnersRemain(h, h', gone);
    forall j | 0 <= j < |h'.effects| ensures EffectInv(h', j) {
      assert EffectInv(h, j);
    }
  }

  lemma RejectKeepsInv(h: Hook, i: nat)
    requires Inv(h) && i < |h.effects| && h.effects[i].request.Fetching?
    ensures Inv(Reject(h, i))
  {
    var h' := Reject(h, i);
    assert EffectInv(h, i);
    forall j: nat, b: nat ensures Owns(h', j, b) <==> Owns(h, j, b) {
    }
    OwnersRemain(h, h', None);
    forall j | 0 <= j < |h'.effects| ensures EffectInv(h', j) {
      assert EffectInv(h, j);
    }
  }

  lemma UnmountKeepsInv(h: Hook)
    requires Inv(h) && h.current == None
    ensures Inv(h.(mounted := false))
  {
    var h' := h.(mounted := false);
    forall j: nat, b: nat ensures Owns(h', j, b) <==> Owns(h, j, b) {
    }
    OwnersRemain(h, h', None);
    forall j | 0 <= j < |h'.effects| ensures EffectInv(h', j) {
      assert EffectInv(h, j);
    }
  }

  lemma {:induction false} StepKeepsInv(h: Hook, e: Event)
    requires Inv(h) && Enabled(h, e)
    ensures Inv(Step(h, e))
  {
    hide Inv, Cleanup, StartEffect, Create, Deliver, Reject;
    match e
    case UrlChanges(url) =>
      CleanupKeepsInv(h);
      CleanupStays(h);
      StartKeepsInv(Cleanup(h), url);
    case Unmounts =>
      CleanupKeepsInv(h);
      UnmountKeepsInv(Cleanup(h));
    case Responds(i) => CreateKeepsInv(h, i);
    case Delivers(i) => DeliverKeepsInv(h, i);
    case Fails(i) => RejectKeepsInv(h, i);
  }

  lemma CleanupStays(h: Hook)
    requires h.current.Some? ==> h.current.value < |h.effects|
    ensures Cleanup(h).mounted == h.mounted && Cleanup(h).src == h.src
  {
  }

  lemma ReachableInv(h: Hook)
    requires Reachable(Step, INITIAL, h)
    ensures Inv(h)
  {
    var es :| IsRun(Step, INITIAL, es, h);
    forall t, e | Inv(t) && Step.requires(t, e) ensures Inv(Step(t, e)) {
      StepKeepsInv(t, e);
    }
    assert Inv(INITIAL);
    RunKeeps(Step, Inv, INITIAL, es, h);
  }

  // ----- What every run keeps -----

  /**
   Under every order of url changes, responses and unmount: a blob URL is revoked at most once, and exactly the
   ones not alive were.
  */
  lemma RevokedAtMostOnce(h: Hook, blob: nat)
    requires Reachable(Step, INITIAL, h)
    ensures h.revoked[blob] <= 1
    ensures blob < h.next ==> (h.revoked[blob] == 1 <==> blob !in h.alive)
    ensures blob >= h.next ==> h.revoked[blob] == 0 && blob !in h.alive
  {
    ReachableInv(h);
    assert h.revoked[blob] > 0 ==> blob in h.revoked;
  }

  /** Once unmounted, with no response outstanding, every blob URL ever made has been revoked. */
  lemma NothingLeaks(h: Hook)
    requires Reachable(Step, INITIAL, h) && !h.mounted
    requires forall i :: 0 <= i < |h.effects| ==> h.effects[i].request.Settled?
    ensures h.alive == {}
  {
    ReachableInv(h);
    assert forall i: nat, blob: nat :: !Owns(h, i, blob);
  }

  /** While mounted, with no response outstanding, at most the blob URL of the current effect is alive. */
  lemma AtMostOneShown(h: Hook, a: nat, b: nat)
    requires Reachable(Step, INITIAL, h)
    requires forall i :: 0 <= i < |h.effects| ==> h.effects[i].request.Settled?
    requires a in h.alive && b in h.alive
    ensures a == b && h.current.Some? && h.current.value < |h.effects|
      && h.effects[h.current.value].objectUrl == Some(a)
  {
    ReachableInv(h);
    var i: nat :| Owns(h, i, a);
    var j: nat :| Owns(h, j, b);
  }

  /**
   A response for anything but the current url never changes what is shown; one for the current url shows what
   it brought.
  */
  lemma StaleResponsesAreInvisible(h: Hook, e: Event)
    requires Reachable(Step, INITIAL, h) && Enabled(h, e) && (e.Delivers? || e.Fails? || e.Responds?)
    ensures h.current != Some(e.i) ==> Step(h, e).src == h.src
    ensures e.Delivers? && h.current == Some(e.i) ==> Step(h, e).src == Blob(h.effects[e.i].request.blob)
    ensures e.Delivers? && h.current == Some(e.i) ==> h.effects[e.i].request.blob in Step(h, e).alive
    ensures e.Fails? && h.current == Some(e.i) ==> Step(h, e).src == Undefined
  {
    ReachableInv(h);
    assert EffectInv(h, e.i);
    if e.Delivers? {
      assert Owns(h, e.i, h.effects[e.i].request.blob);
    }
  }

  /**
   A local preview url is shown as it is, and never revoked here: changing to it or away from it revokes only
   the hook's own blob URLs.
  */
  lemma PreviewsPassThrough(h: Hook, url: string)
    requires Reachable(Step, INITIAL, h) && h.mounted && ("blob:" <= url || "data:" <= url)
    ensures Enabled(h, UrlChanges(Some(url)))
    ensures var shown := Step(h, UrlChanges(Some(url)));
      && shown.src == Passed(url) && shown.current == None && |shown.effects| == |h.effects|
      && forall next :: Step(shown, UrlChanges(next)).revoked == shown.revoked
  {
    ReachableInv(h);
    CleanupKeepsInv(h);
    CleanupStays(h);
  }

  // ----- What is shown -----

  /** Neither a local preview nor empty. */
  predicate IsFetched(url: string) {
    url != "" && !("blob:" <= url) && !("data:" <= url)
  }

  /**
   An ordinary url is fetched: changing to it starts one more request and leaves what is shown; when the request
   succeeds a new blob URL is made, and then shown and alive; when it fails nothing is shown.
  */
  lemma {:induction false} OrdinaryUrlsAreShown(h: Hook, url: string)
    requires Reachable(Step, INITIAL, h) && h.mounted && IsFetched(url)
    ensures Enabled(h, UrlChanges(Some(url)))
    ensures var i, started := |h.effects|, Step(h, UrlChanges(Some(url)));
      && started.src == h.src && started.current == Some(i)
      && |started.effects| == i + 1 && started.effects[i] == Effect(false, None, Fetching)
      && Enabled(started, Responds(i)) && Enabled(started, Fails(i))
      && Step(started, Fails(i)).src == Undefined && Step(started, Fails(i)).effects[i].request == Settled
      && var created := Step(started, Responds(i));
        && created.src == h.src && created.alive == started.alive + {h.next} && created.next == h.next + 1
        && Enabled(created, Delivers(i))
        && var shown := Step(created, Delivers(i));
          && shown.src == Blob(h.next) && h.next in shown.alive && shown.alive == created.alive
          && shown.effects[i] == Effect(false, Some(h.next), Settled)
  {
    ReachableInv(h);
    CleanupFrame(h);
    hide Cleanup, Inv;
  }

  lemma CleanupFrame(h: Hook)
    requires Inv(h)
    ensures var c := Cleanup(h);
      && c.src == h.src && c.next == h.next && |c.effects| == |h.effects| && c.current == None && c.mounted == h.mounted
  {
  }

  /** Without a url nothing is shown and nothing is fetched. */
  lemma {:induction false} NoUrlShowsNothing(h: Hook, url: Option<string>)
    requires Reachable(Step, INITIAL, h) && h.mounted && (url == None || url == Some(""))
    ensures Enabled(h, UrlChanges(url))
    ensures var empty := Step(h, UrlChanges(url));
      empty.src == Undefined && |empty.effects| == |h.effects| && empty.current == None
  {
    ReachableInv(h);
    CleanupFrame(h);
    hide Cleanup, Inv;
  }

  /**
   Leaving a url, for another one or by unmounting, revokes the blob URL shown for it and nothing else; what
   arrives for it later is revoked as it arrives, and is never shown.
  */
  lemma {:induction false} LeavingRevokes(h: Hook, next: Event)
    requires Reachable(Step, INITIAL, h) && h.mounted && h.current.Some? && (next.UrlChanges? || next.Unmounts?)
    requires Enabled(h, next)
    ensures var i := h.current.value;
      var left := Step(h, next);
      && i < |h.effects| && i < |left.effects| && left.effects[i].cancelled && left.mounted == next.UrlChanges?
      && (match h.effects[i].objectUrl
          case None => left.alive == h.alive && left.revoked == h.revoked
          case Some(blob) => left.alive == h.alive - {blob} && left.revoked == h.revoked + multiset{blob})
      && (left.effects[i].request.Created? ==>
           var blob, late := left.effects[i].request.blob, Step(left, Delivers(i));
           late.src == left.src && late.alive == left.alive - {blob} && late.revoked == left.revoked + multiset{blob})
  {
    ReachableInv(h);
    assert EffectInv(h, h.current.value);
  }

  // ----- The hook -----

  /** A mounted hook can always take a new url or be unmounted. */
  lemma MountedIsEnabled(h: Hook)
    ensures Reachable(Step, INITIAL, h) && h.mounted ==> Enabled(h, Unmounts)
  {
    if Reachable(Step, INITIAL, h) {
      ReachableInv(h);
    }
  }

  /**
   The hook in its component, with the responses under way. As its state is reachable, every theorem about runs
   holds of it.
  */
  class AuthedMediaSrc {
    var mounted: bool
    var src: Src
    var effects: seq<Effect>
    var current: Option<nat>
    // the browser's blob URLs
    var alive: set<nat>
    ghost var revoked: multiset<nat>
    var next: nat

    ghost function View(): Hook
      reads this
    {
      Hook(mounted, src, effects, current, alive, revoked, next)
    }

    ghost predicate Valid()
      reads this
      ensures Valid() && mounted ==> Enabled(View(), Unmounts)
    {
      MountedIsEnabled(View());
      Reachable(Step, INITIAL, View())
    }

    /** Every blob URL is revoked at most once, and all are once the hook is unmounted and the responses are in. */
    lemma RevokesEachOnce()
      requires Valid()
      ensures forall blob: nat :: revoked[blob] <= 1
      ensures forall blob: nat :: blob < next && blob !in alive ==> revoked[blob] == 1
      ensures !mounted && (forall i :: 0 <= i < |effects| ==> effects[i].request.Settled?) ==> alive == {}
    {
      forall blob: nat ensures revoked[blob] <= 1 && (blob < next && blob !in alive ==> revoked[blob] == 1) {
        RevokedAtMostOnce(View(), blob);
      }
      if !mounted && forall i :: 0 <= i < |effects| ==> effects[i].request.Settled? {
        NothingLeaks(View());
      }
    }

    constructor ()
      ensures Valid() && View() == INITIAL
    {
      mounted, src, effects, current := true, Undefined, [], None;
      alive, revoked, next := {}, multiset{}, 0;
      new;
      InitialIsReachable(Step, INITIAL);
    }

    method RevokeObjectURL(blob: nat)
      modifies this`alive, this`revoked
      ensures View() == Revoke(old(View()), blob)
      ensures alive == old(alive) - {blob} && revoked == old(revoked) + multiset{blob}
    {
      alive := alive - {blob};
      revoked := revoked + multiset{blob};
    }

    method RunCleanup()
      requires current.Some? ==> current.value < |effects|
      modifies this
      ensures View() == Cleanup(old(View()))
      ensures current == None && src == old(src)
      ensures old(current).Some? ==> var e := old(effects[current.value]);
        && effects == old(effects)[old(current).value := Effect(true, e.objectUrl, e.request)]
        && alive == old(alive) - (if e.objectUrl.Some? then {e.objectUrl.value} else {})
      ensures old(current).None? ==> effects == old(effects) && alive == old(alive)
    {
      if current.Some? {
        var i := current.value;
        var e := effects[i];
        effects := effects[i := e.(cancelled := true)];
        current := None;
        if e.objectUrl.Some? {
          RevokeObjectURL(e.objectUrl.value);
        }
      }
    }

    method RunEffect(url: Option<string>)
      modifies this
      ensures View() == StartEffect(old(View()), url)
      ensures if url.None? || url.value == "" then
          src == Undefined && effects == old(effects) && current == old(current)
        else if "blob:" <= url.value || "data:" <= url.value then
          src == Passed(url.value) && effects == old(effects) && current == old(current)
        else
          && src == old(src) && current == Some(|old(effects)|)
          && effects == old(effects) + [Effect(false, None, Fetching)]
    {
      if url.None? || url.value == "" {
        src := Undefined;
        return;
      }
      if PassesThrough(url.value) {
        src := Passed(url.value);
        return;
      }
      current := Some(|effects|);
      effects := effects + [Effect(false, None, Fetching)];
    }

    method ChangeUrl(url: Option<string>)
      requires Valid() && mounted
      modifies this
      ensures Valid() && View() == Step(old(View()), UrlChanges(url)) && mounted
    {
      assert Enabled(View(), UrlChanges(url));
      ReachableStep(Step, INITIAL, View(), UrlChanges(url));
      RunCleanup();
      RunEffect(url);
    }

    method Unmount()
      requires Valid() && mounted
      modifies this
      ensures Valid() && View() == Step(old(View()), Unmounts)
      ensures !mounted && src == old(src) && current == None
    {
      assert Enabled(View(), Unmounts);
      ReachableStep(Step, INITIAL, View(), Unmounts);
      RunCleanup();
      mounted := false;
    }

    method CreateObjectURL(i: nat)
      requires Valid() && Enabled(View(), Responds(i))
      modifies this
      ensures Valid() && View() == Step(old(View()), Responds(i))
      ensures alive == old(alive) + {old(next)} && next == old(next) + 1 && src == old(src)
    {
      ReachableStep(Step, INITIAL, View(), Responds(i));
      effects := effects[i := effects[i].(request := Created(next))];
      alive := alive + {next};
      next := next + 1;
    }

    method Then(i: nat)
      requires Valid() && Enabled(View(), Delivers(i))
      modifies this
      ensures Valid() && View() == Step(old(View()), Delivers(i))
      ensures var blob := old(effects[i].request.blob);
        if old(effects[i].cancelled) then
          src == old(src) && alive == old(alive) - {blob} && revoked == old(revoked) + multiset{blob}
        else src == Blob(blob) && alive == old(alive) && revoked == old(revoked) && effects[i].objectUrl == Some(blob)
    {
      ReachableStep(Step, INITIAL, View(), Delivers(i));
      var e := effects[i];
      var blob := e.request.blob;
      if e.cancelled {
        effects := effects[i := e.(request := Settled)];
        RevokeObjectURL(blob);
      } else {
        effects := effects[i := e.(objectUrl := Some(blob), request := Settled)];
        src := Blob(blob);
      }
    }

    method Catch(i: nat)
      requires Valid() && Enabled(View(), Fails(i))
      modifies this
      ensures Valid() && View() == Step(old(View()), Fails(i))
      ensures src == (if old(effects[i].cancelled) then old(src) else Undefined) && alive == old(alive)
    {
      ReachableStep(Step, INITIAL, View(), Fails(i));
      effects := effects[i := effects[i].(request := Settled)];
      if !effects[i].cancelled {
        src := Undefined;
      }
    }
  }
}
