/**
 What the shared refresh of `TokenRefresh` is for: no used-up token, no logout of a live session. And where it
 ends: POSTs sent around the lock, sign-outs, lost answers, and the variant without the lock.
*/
module RefreshSafety {
  import opened Options
  import opened Runs
  import opened TokenRefresh

  // ----- Calm and exclusive runs -----

  /** Nothing is lost, the session stays alive and nobody starts a refresh around the lock; sign-outs may happen. */
  predicate IsCalm(e: Event) {
    IsProtocol(e) || e.ClearAuth?
  }

  function CalmStep(w: World, e: Event): World
    requires Enabled(w, e) && IsCalm(e)
  {
    Step(true, w, e)
  }

  ghost predicate NoneInFlight(pg: Page) {
    forall r :: HasPost(pg, r) ==> !InFlight(PostAt(pg, r))
  }

  /** The step sends a POST /auth/refresh. */
  predicate Sends(w: World, e: Event)
    requires Enabled(w, e)
  {
    match e
    case FirstResponse(_, unauthorized) => unauthorized && w.page.refreshPromise.None?
    case DirectHeaders(d) =>
      var x := w.page.directs[d];
      x.post.Refused? && x.post.unauthorized && !x.retried && w.page.refreshPromise.None?
    case DirectResume(d) => w.page.posts[w.page.directs[d].lock].ok
    case DirectSend => true
    case _ => false
  }

  /** As in a calm run, but with refreshes around the lock, and with no POST sent while another one is in flight. */
  ghost predicate ExclusiveAt(w: World, e: Event)
    requires Enabled(w, e)
  {
    (IsCalm(e) || e.DirectSend?) && (Sends(w, e) ==> NoneInFlight(w.page))
  }

  ghost function ExclusiveStep(w: World, e: Event): World
    requires Enabled(w, e) && ExclusiveAt(w, e)
  {
    Step(true, w, e)
  }

  lemma {:induction false} ExclusiveRunIsRun(w: World, es: seq<Event>, w': World)
    requires IsRun(ExclusiveStep, w, es, w')
    ensures IsRun(LockedStep, w, es, w')
    decreases |es|
  {
    if es != [] {
      ExclusiveRunIsRun(Step(true, w, es[0]), es[1..], w');
    }
  }

  // ----- The invariant of exclusive runs -----

  predicate CalmPost(w: World, post: Post) {
    match post
    case Sent(cookie) => cookie == w.page.cookie == Some(w.server.valid)
    case Accepted(_) => true
    case Refused(_, _) => false
    case Parsing(_) => true
    case Settled(ok, _, _) => ok
  }

  ghost predicate AtMostOneInFlight(pg: Page) {
    forall r, s :: HasPost(pg, r) && HasPost(pg, s) && InFlight(PostAt(pg, r)) && InFlight(PostAt(pg, s)) ==> r == s
  }

  ghost predicate CalmInv(w: World) {
    && w.server.alive && w.server.consumed == 0 && w.page.cookie.Some?
    && (NoneInFlight(w.page) ==> w.page.cookie == Some(w.server.valid))
    && AtMostOneInFlight(w.page)
    && (forall r :: HasPost(w.page, r) ==> CalmPost(w, PostAt(w.page, r)))
    && (forall d :: 0 <= d < |w.page.directs| ==> w.page.directs[d].Posting? && !w.page.directs[d].retried)
  }

  /** What must never happen: the server saw a used-up token, or a request logged the user out. */
  ghost predicate Safe(w: World) {
    && w.server.consumed == 0
    && (forall i :: 0 <= i < |w.page.requests| && w.page.requests[i].phase.Done? ==>
         w.page.requests[i].phase.result.Finished?)
    && (forall d :: 0 <= d < |w.page.directs| ==> !w.page.directs[d].LoggedOut?)
  }

  lemma CalmIsSafe(w: World)
    requires Inv(w) && CalmInv(w)
    ensures Safe(w)
  {
    hide CookieInv, OrderInv, LockInv;
    forall i | 0 <= i < |w.page.requests| && w.page.requests[i].phase.Done?
      ensures w.page.requests[i].phase.result.Finished?
    {
      var r := w.page.requests[i];
      assert RequestInv(w.page, r);
      if r.phase.result.Expired? && r.phase.joined.Some? {
        CalmPosts(w, Locked(r.phase.joined.value));
      }
    }
  }

  lemma {:induction false} InitIsCalm(n: nat)
    ensures CalmInv(Init(n))
  {
  }

  /** Steps that touch no POST, or only settle one. */
  lemma NothingSent(w: World, w': World)
    requires CalmInv(w) && w'.server == w.server && w'.page.cookie == w.page.cookie
    requires forall r :: HasPost(w'.page, r) <==> HasPost(w.page, r)
    requires forall r :: HasPost(w.page, r) ==>
      PostAt(w'.page, r) == PostAt(w.page, r)
      || (PostAt(w'.page, r).Settled? && PostAt(w'.page, r).ok && PostAt(w.page, r).Parsing?)
    requires |w'.page.directs| == |w.page.directs|
    requires forall d :: 0 <= d < |w.page.directs| ==> w'.page.directs[d].Posting? && !w'.page.directs[d].retried
    ensures CalmInv(w')
  {
    forall r | HasPost(w'.page, r) ensures CalmPost(w', PostAt(w'.page, r)) {
      assert HasPost(w.page, r) && CalmPost(w, PostAt(w.page, r));
    }
    if NoneInFlight(w'.page) {
      forall r | HasPost(w.page, r) ensures !InFlight(PostAt(w.page, r)) {
        assert HasPost(w'.page, r);
      }
    }
  }

  /** A POST is sent while none is in flight. */
  lemma OneSent(w: World, w': World, r: Ref)
    requires CalmInv(w) && NoneInFlight(w.page) && w'.server == w.server && w'.page.cookie == w.page.cookie
    requires HasPost(w'.page, r) && PostAt(w'.page, r) == Sent(w.page.cookie) && ChangesOnly(w.page, w'.page, r)
    requires forall d :: 0 <= d < |w'.page.directs| ==> w'.page.directs[d].Posting? && !w'.page.directs[d].retried
    ensures CalmInv(w')
  {
    forall s | HasPost(w'.page, s)
      ensures CalmPost(w', PostAt(w'.page, s)) && (s != r ==> !InFlight(PostAt(w'.page, s)))
    {
      if s != r {
        assert HasPost(w.page, s) && CalmPost(w, PostAt(w.page, s)) && !InFlight(PostAt(w.page, s));
      }
    }
    assert !NoneInFlight(w'.page);
  }

  /** The POST in flight is accepted, or its accepted answer arrives. */
  lemma OneMoves(w: World, w': World, r: Ref)
    requires CookieInv(w) && CalmInv(w) && HasPost(w.page, r) && HasPost(w'.page, r) && ChangesOnly(w.page, w'.page, r)
    requires || (PostAt(w.page, r).Sent? && PostAt(w'.page, r).Accepted? && w'.page.cookie == w.page.cookie)
             || (PostAt(w.page, r).Accepted? && PostAt(w'.page, r).Parsing? && w'.page.cookie == Some(w'.server.valid))
    requires w'.server.alive && w'.server.consumed == 0
    requires |w'.page.directs| == |w.page.directs|
    requires forall d :: 0 <= d < |w.page.directs| ==> w'.page.directs[d].Posting? && !w'.page.directs[d].retried
    ensures CalmInv(w')
  {
    forall s | HasPost(w'.page, s) && s != r ensures CalmPost(w', PostAt(w'.page, s)) && !InFlight(PostAt(w'.page, s)) {
      assert HasPost(w.page, s) && CalmPost(w, PostAt(w.page, s));
      assert InFlight(PostAt(w.page, s)) ==> s == r;
    }
    if PostAt(w'.page, r).Accepted? {
      assert !NoneInFlight(w'.page);
    }
  }

  lemma CalmPosts(w: World, r: Ref)
    requires CalmInv(w) && HasPost(w.page, r)
    ensures CalmPost(w, PostAt(w.page, r)) && (r.Around? ==> !w.page.directs[r.d].retried)
  {
  }

  lemma CalmServer(w: World)
    requires CalmInv(w)
    ensures w.server.alive && w.server.consumed == 0 && w.page.cookie.Some?
    ensures forall d :: 0 <= d < |w.page.directs| ==> w.page.directs[d].Posting? && !w.page.directs[d].retried
  {
  }

  lemma AcceptedIsValid(w: World, r: Ref)
    requires CookieInv(w) && HasPost(w.page, r) && PostAt(w.page, r).Accepted?
    ensures PostAt(w.page, r).gen == w.server.valid && w.page.cookie != Some(w.server.valid)
  {
  }

  lemma SendingStaysCalm(w: World, e: Event)
    requires CalmInv(w) && Enabled(w, e) && Sends(w, e) && NoneInFlight(w.page)
    ensures e.FirstResponse? || e.DirectSend?
    ensures CalmInv(Step(true, w, e))
  {
    var w' := Step(true, w, e);
    CalmServer(w);
    if e.FirstResponse? {
      hide CalmInv;
      OneSent(w, w', Locked(|w.page.posts|));
    } else if e.DirectSend? {
      hide CalmInv;
      OneSent(w, w', Around(|w.page.directs|));
    } else if e.DirectHeaders? {
      CalmPosts(w, Around(e.d));
    }
  }

  lemma MovingStaysCalm(w: World, e: Event)
    requires CookieInv(w) && CalmInv(w) && Enabled(w, e) && (e.ServePost? || e.RefreshHeaders? || e.DirectHeaders?)
    ensures CalmInv(Step(true, w, e))
  {
    var w' := Step(true, w, e);
    var r := if e.ServePost? then e.r else if e.RefreshHeaders? then Locked(e.p) else Around(e.d);
    CalmServer(w);
    CalmPosts(w, r);
    hide CalmInv, CookieInv;
    if PostAt(w.page, r).Accepted? { AcceptedIsValid(w, r); }
    OneMoves(w, w', r);
  }

  lemma StepStaysCalm(w: World, e: Event)
    requires Inv(w) && CalmInv(w) && Enabled(w, e) && ExclusiveAt(w, e)
    ensures CalmInv(Step(true, w, e))
  {
    hide PageInv, OrderInv, CalmInv, CookieInv, NoneInFlight;
    if Sends(w, e) {
      SendingStaysCalm(w, e);
    } else if e.ServePost? || e.RefreshHeaders? || e.DirectHeaders? {
      MovingStaysCalm(w, e);
    } else {
      CalmServer(w);
      NothingSent(w, Step(true, w, e));
    }
  }

  lemma {:induction false} ExclusiveRunKeepsInv(w: World, es: seq<Event>, w': World)
    requires Inv(w) && CalmInv(w) && IsRun(ExclusiveStep, w, es, w')
    ensures Inv(w') && CalmInv(w')
    decreases |es|
  {
    if es != [] {
      hide PageInv, CookieInv, OrderInv, CalmInv, Step, ExclusiveAt;
      StepKeepsInv(w, es[0]);
      StepStaysCalm(w, es[0]);
      ExclusiveRunKeepsInv(Step(true, w, es[0]), es[1..], w');
    }
  }

  lemma ExclusiveInv(n: nat, es: seq<Event>, w: World)
    requires IsRun(ExclusiveStep, Init(n), es, w)
    ensures Inv(w) && CalmInv(w)
  {
    InitInv(n);
    InitIsCalm(n);
    ExclusiveRunKeepsInv(Init(n), es, w);
  }

  // ----- No consumed token, no logout -----

  /** Without refreshes around the lock, the lock alone keeps two POSTs from being in flight at once. */
  lemma LockIsExclusive(w: World, e: Event)
    requires Inv(w) && w.page.directs == [] && Enabled(w, e) && IsCalm(e)
    ensures ExclusiveAt(w, e) && Step(true, w, e).page.directs == []
  {
    hide CookieInv, OrderInv;
    if Sends(w, e) {
      forall r | HasPost(w.page, r) ensures !InFlight(PostAt(w.page, r)) {
        UnsettledPost(w.page, r.p);
      }
    }
  }

  lemma {:induction false} CalmRunIsExclusive(w: World, es: seq<Event>, w': World)
    requires Inv(w) && w.page.directs == [] && IsRun(CalmStep, w, es, w')
    ensures IsRun(ExclusiveStep, w, es, w')
    decreases |es|
  {
    if es != [] {
      hide Inv, Step, IsCalm, ExclusiveAt;
      LockIsExclusive(w, es[0]);
      StepKeepsInv(w, es[0]);
      CalmRunIsExclusive(Step(true, w, es[0]), es[1..], w');
    }
  }

  /**
   While answers arrive, the session lives and nobody refreshes around the lock, no interleaving of any number of
   requests makes the server see a used-up token, and no request reaches `logout()`.
  */
  lemma NoRequestLogsOut(n: nat, es: seq<Event>, w: World)
    requires IsRun(CalmStep, Init(n), es, w)
    ensures Safe(w)
  {
    hide Inv, CalmInv, Safe;
    InitInv(n);
    CalmRunIsExclusive(Init(n), es, w);
    ExclusiveRunsAreSafe(n, es, w);
  }

  /** The same holds with any number of refreshes around the lock, if no POST is sent while another is in flight. */
  lemma ExclusiveRunsAreSafe(n: nat, es: seq<Event>, w: World)
    requires IsRun(ExclusiveStep, Init(n), es, w)
    ensures Safe(w)
  {
    hide Inv, CalmInv, Safe;
    ExclusiveInv(n, es, w);
    CalmIsSafe(w);
  }

  /** Every POST about to reach the server in such a run carries the newest cookie. */
  lemma PostCarriesNewestCookie(n: nat, es: seq<Event>, w: World, r: Ref)
    requires IsRun(ExclusiveStep, Init(n), es, w)
    requires HasPost(w.page, r) && PostAt(w.page, r).Sent?
    ensures PostAt(w.page, r).cookie == Some(w.server.valid)
    ensures PostAt(Step(true, w, ServePost(r)).page, r).Accepted?
  {
    ExclusiveInv(n, es, w);
    hide Inv;
    CalmPosts(w, r);
  }

  /**
   Every exclusive run that cannot go on has answered every request, none of them with a logout, and holds the
   valid cookie.
  */
  lemma CalmRunsFinish(n: nat, es: seq<Event>, w: World)
    requires IsRun(ExclusiveStep, Init(n), es, w) && Quiescent(w)
    ensures |w.page.requests| == n
    ensures forall i :: 0 <= i < n ==> w.page.requests[i].phase.Done? && w.page.requests[i].phase.result.Finished?
    ensures w.page.refreshPromise.None? && w.page.cookie == Some(w.server.valid)
  {
    ExclusiveRunIsRun(Init(n), es, w);
    ExclusiveInv(n, es, w);
    hide Inv, Quiescent;
    RunUsesWork(Init(n), es, w);
    QuiescentMeansDone(w);
    CalmIsSafe(w);
    forall r | HasPost(w.page, r) ensures !InFlight(PostAt(w.page, r)) {
      QuietPost(w, r);
    }
  }

  // ----- Two POSTs at once -----

  ghost predicate SafeAlone(w: World) {
    forall es, w' :: IsRun(ExclusiveStep, w, es, w') ==> Safe(w')
  }

  ghost predicate SafeFrom(w: World) {
    forall es, w' :: IsRun(CalmStep, w, es, w') ==> Safe(w')
  }

  lemma UnsafeNow(w: World)
    requires !Safe(w)
    ensures !SafeFrom(w) && !SafeAlone(w)
  {
    assert IsRun(CalmStep, w, [], w) && IsRun(ExclusiveStep, w, [], w);
  }

  lemma UnsafeBefore(w: World, e: Event)
    requires Enabled(w, e) && IsCalm(e) && !SafeFrom(Step(true, w, e))
    ensures !SafeFrom(w)
  {
    var v := Step(true, w, e);
    var es, w' :| IsRun(CalmStep, v, es, w') && !Safe(w');
    RunFirst(CalmStep, w, e, es, w');
  }

  lemma UnsafeAloneBefore(w: World, e: Event)
    requires Enabled(w, e) && ExclusiveAt(w, e) && !SafeAlone(Step(true, w, e))
    ensures !SafeAlone(w)
  {
    var v := Step(true, w, e);
    var es, w' :| IsRun(ExclusiveStep, v, es, w') && !Safe(w');
    RunFirst(ExclusiveStep, w, e, es, w');
  }

  /** Serving a POST that carries another token than the valid one ends all safety. */
  lemma UsedUpToken(w: World, r: Ref)
    requires w.server.alive && HasPost(w.page, r) && PostAt(w.page, r).Sent?
    requires PostAt(w.page, r).cookie.Some? && PostAt(w.page, r).cookie != Some(w.server.valid)
    ensures !SafeFrom(w) && !SafeAlone(w)
  {
    hide SafeFrom, SafeAlone;
    UnsafeNow(Step(true, w, ServePost(r)));
    UnsafeBefore(w, ServePost(r));
    UnsafeAloneBefore(w, ServePost(r));
  }

  /** Of two POSTs with the valid token the second to be served is refused. */
  lemma SameTokenTwice(w: World, r: Ref, s: Ref)
    requires w.server.alive && HasPost(w.page, r) && HasPost(w.page, s) && r != s
    requires PostAt(w.page, r) == PostAt(w.page, s) == Sent(Some(w.server.valid))
    ensures !SafeFrom(w) && !SafeAlone(w)
  {
    hide SafeFrom, SafeAlone;
    UsedUpToken(Step(true, w, ServePost(r)), s);
    UnsafeBefore(w, ServePost(r));
    UnsafeAloneBefore(w, ServePost(r));
  }

  /** The POST a step sends. */
  function NewPost(w: World, e: Event): Ref {
    if e.DirectSend? then Around(|w.page.directs|) else Locked(|w.page.posts|)
  }

  lemma OverlapGoesWrong(w: World, e: Event, r: Ref)
    requires CookieInv(w) && CalmInv(w) && Enabled(w, e) && Sends(w, e)
    requires HasPost(w.page, r) && InFlight(PostAt(w.page, r))
    ensures !SafeFrom(Step(true, w, e)) && !SafeAlone(Step(true, w, e))
  {
    CalmPosts(w, r);
    CalmServer(w);
    if e.DirectHeaders? { CalmPosts(w, Around(e.d)); }
    if PostAt(w.page, r).Accepted? { AcceptedIsValid(w, r); }
    hide CookieInv, CalmInv, SafeFrom, SafeAlone;
    var v, s := Step(true, w, e), NewPost(w, e);
    assert HasPost(v.page, r) && PostAt(v.page, r) == PostAt(w.page, r);
    assert HasPost(v.page, s) && PostAt(v.page, s) == Sent(w.page.cookie);
    if PostAt(w.page, r).Sent? {
      SameTokenTwice(v, r, s);
    } else {
      UsedUpToken(v, s);
    }
  }

  /**
   Sending a POST, by the lock or around it, keeps every exclusive continuation safe exactly when no other POST
   is in flight at that moment.
  */
  lemma OverlapIsUnsafeExactly(n: nat, es: seq<Event>, w: World, e: Event)
    requires IsRun(ExclusiveStep, Init(n), es, w) && Enabled(w, e) && Sends(w, e)
    ensures SafeAlone(Step(true, w, e)) <==> NoneInFlight(w.page)
  {
    ExclusiveInv(n, es, w);
    if NoneInFlight(w.page) {
      hide PageInv, CookieInv, OrderInv, CalmInv;
      var v := Step(true, w, e);
      SendingStaysCalm(w, e);
      StepKeepsInv(w, e);
      forall fs, w' | IsRun(ExclusiveStep, v, fs, w') ensures Safe(w') {
        ExclusiveRunKeepsInv(v, fs, w');
        CalmIsSafe(w');
      }
    } else {
      var r :| HasPost(w.page, r) && InFlight(PostAt(w.page, r));
      OverlapGoesWrong(w, e, r);
    }
  }

  // ----- Whole runs with overlaps -----

  function FaultFreeStep(w: World, e: Event): World
    requires Enabled(w, e) && (IsCalm(e) || e.DirectSend?)
  {
    Step(true, w, e)
  }

  /** A POST on its way to the server carries a used-up token. */
  predicate CarriesUsedUp(w: World, s: Ref) {
    && HasPost(w.page, s) && PostAt(w.page, s).Sent?
    && PostAt(w.page, s).cookie.Some? && PostAt(w.page, s).cookie.value < w.server.valid
  }

  predicate CarryTheSame(w: World, r: Ref, s: Ref) {
    && HasPost(w.page, r) && HasPost(w.page, s) && r != s
    && PostAt(w.page, r) == PostAt(w.page, s) == Sent(Some(w.server.valid))
  }

  /** The server has seen a used-up token, or cannot but see one. */
  ghost predicate Doomed(w: World) {
    && w.server.alive
    && (|| w.server.consumed > 0
        || (exists s :: CarriesUsedUp(w, s))
        || (exists r, s :: CarryTheSame(w, r, s)))
  }

  /** Until it is served, a POST stays as it was sent. */
  lemma SentStays(w: World, e: Event, s: Ref)
    requires Enabled(w, e) && (IsCalm(e) || e.DirectSend?)
    requires HasPost(w.page, s) && PostAt(w.page, s).Sent? && e != ServePost(s)
    ensures var w' := Step(true, w, e); HasPost(w'.page, s) && PostAt(w'.page, s) == PostAt(w.page, s)
  {
  }

  lemma ServerMoves(w: World, e: Event)
    requires Enabled(w, e) && (IsCalm(e) || e.DirectSend?)
    ensures var s, s' := w.server, Step(true, w, e).server;
      && s'.alive == s.alive && s.consumed <= s'.consumed && s.valid <= s'.valid
      && (s'.valid != s.valid ==> e.ServePost?)
  {
  }

  lemma FirstIsServed(w: World, r: Ref, s: Ref)
    requires w.server.alive && CarryTheSame(w, r, s)
    ensures CarriesUsedUp(Step(true, w, ServePost(r)), s)
  {
  }

  lemma DoomedStays(w: World, e: Event)
    requires Doomed(w) && Enabled(w, e) && (IsCalm(e) || e.DirectSend?)
    ensures Doomed(Step(true, w, e))
  {
    var w' := Step(true, w, e);
    hide Step, IsCalm, Enabled;
    ServerMoves(w, e);
    if w.server.consumed == 0 {
      if s :| CarriesUsedUp(w, s) {
        if e == ServePost(s) {
        } else {
          SentStays(w, e, s);
          assert CarriesUsedUp(w', s);
        }
      } else {
        var r, s :| CarryTheSame(w, r, s);
        if e == ServePost(r) {
          FirstIsServed(w, r, s);
        } else if e == ServePost(s) {
          FirstIsServed(w, s, r);
        } else {
          SentStays(w, e, r);
          SentStays(w, e, s);
          assert CarriesUsedUp(w', s) || CarryTheSame(w', r, s);
        }
      }
    }
  }

  lemma {:induction false} DoomedEnds(w: World, es: seq<Event>, w': World)
    requires Doomed(w) && IsRun(FaultFreeStep, w, es, w') && Quiescent(w')
    ensures !Safe(w')
    decreases |es|
  {
    if es == [] {
      forall s | HasPost(w.page, s) ensures !PostAt(w.page, s).Sent? {
        QuietPost(w, s);
      }
    } else {
      hide Doomed, Quiescent, Safe, Step, Enabled, IsCalm;
      DoomedStays(w, es[0]);
      DoomedEnds(Step(true, w, es[0]), es[1..], w');
    }
  }

  lemma OverlapIsDoomed(w: World, e: Event, r: Ref)
    requires CookieInv(w) && CalmInv(w) && Enabled(w, e) && Sends(w, e)
    requires HasPost(w.page, r) && InFlight(PostAt(w.page, r))
    ensures Doomed(Step(true, w, e))
  {
    CalmPosts(w, r);
    CalmServer(w);
    if e.DirectHeaders? { CalmPosts(w, Around(e.d)); }
    if PostAt(w.page, r).Accepted? { AcceptedIsValid(w, r); }
    assert UpTo(w.page.cookie, w.server.valid);
    hide CookieInv, CalmInv;
    var v, s := Step(true, w, e), NewPost(w, e);
    assert HasPost(v.page, r) && PostAt(v.page, r) == PostAt(w.page, r);
    assert HasPost(v.page, s) && PostAt(v.page, s) == Sent(w.page.cookie);
    assert CarryTheSame(v, r, s) || CarriesUsedUp(v, s);
  }

  lemma {:induction false} SafeRunIsExclusive(w: World, es: seq<Event>, w': World)
    requires Inv(w) && CalmInv(w) && IsRun(FaultFreeStep, w, es, w') && Quiescent(w') && Safe(w')
    ensures IsRun(ExclusiveStep, w, es, w')
    decreases |es|
  {
    if es != [] {
      var v := Step(true, w, es[0]);
      hide PageInv, CookieInv, OrderInv, CalmInv, Safe, Quiescent, Step, Enabled, IsCalm, Doomed;
      if ExclusiveAt(w, es[0]) {
        StepKeepsInv(w, es[0]);
        StepStaysCalm(w, es[0]);
        SafeRunIsExclusive(v, es[1..], w');
      } else {
        var r :| HasPost(w.page, r) && InFlight(PostAt(w.page, r));
        OverlapIsDoomed(w, es[0], r);
        DoomedEnds(v, es[1..], w');
      }
    }
  }

  /**
   A complete fault-free run, with any number of requests and of refreshes around the lock, is safe exactly when
   no POST was ever sent while another one was in flight: every overlap ends in a used-up token.
  */
  lemma SafeExactlyWithoutOverlap(n: nat, es: seq<Event>, w: World)
    requires IsRun(FaultFreeStep, Init(n), es, w) && Quiescent(w)
    ensures Safe(w) <==> IsRun(ExclusiveStep, Init(n), es, w)
  {
    hide Inv, CalmInv, Safe, Quiescent;
    if IsRun(ExclusiveStep, Init(n), es, w) {
      ExclusiveRunsAreSafe(n, es, w);
    }
    if Safe(w) {
      InitInv(n);
      InitIsCalm(n);
      SafeRunIsExclusive(Init(n), es, w);
    }
  }

  // ----- The refresh of the onboarding page -----

  /** No request can still get a first answer, and with it a 401. */
  ghost predicate AllAnswered(pg: Page) {
    forall i :: 0 <= i < |pg.requests| ==> !pg.requests[i].phase.Idle? && !pg.requests[i].phase.First?
  }

  lemma AnsweredStays(w: World, e: Event)
    requires CalmInv(w) && AllAnswered(w.page) && Enabled(w, e) && IsCalm(e)
    ensures ExclusiveAt(w, e) && AllAnswered(Step(true, w, e).page)
  {
    if e.DirectHeaders? { CalmPosts(w, Around(e.d)); }
  }

  lemma {:induction false} AnsweredRunIsSafe(w: World, es: seq<Event>, w': World)
    requires Inv(w) && CalmInv(w) && AllAnswered(w.page) && IsRun(CalmStep, w, es, w')
    ensures Safe(w')
    decreases |es|
  {
    hide Inv, CalmInv, AllAnswered, Step, ExclusiveAt, IsCalm, Safe;
    if es == [] {
      CalmIsSafe(w);
    } else {
      var v := Step(true, w, es[0]);
      AnsweredStays(w, es[0]);
      StepKeepsInv(w, es[0]);
      StepStaysCalm(w, es[0]);
      AnsweredRunIsSafe(v, es[1..], w');
    }
  }

  /** The answer of the direct POST is on its way; a request gets a 401 meanwhile and the lock sends the old cookie. */
  lemma UnauthorizedMeanwhile(w: World, s: Ref, i: nat)
    requires w.server.alive && w.page.refreshPromise.None? && w.page.cookie == Some(w.server.valid)
    requires HasPost(w.page, s) && PostAt(w.page, s) == Sent(w.page.cookie)
    requires i < |w.page.requests| && w.page.requests[i].phase.First?
    ensures !SafeFrom(w)
  {
    hide SafeFrom;
    var v := Step(true, w, FirstResponse(i, true));
    SameTokenTwice(v, s, Locked(|w.page.posts|));
    UnsafeBefore(w, FirstResponse(i, true));
  }

  lemma UnansweredGoesWrong(w: World, s: Ref, i: nat)
    requires w.server.alive && w.page.refreshPromise.None? && w.page.cookie == Some(w.server.valid)
    requires HasPost(w.page, s) && PostAt(w.page, s) == Sent(w.page.cookie)
    requires i < |w.page.requests| && (w.page.requests[i].phase.Idle? || w.page.requests[i].phase.First?)
    ensures !SafeFrom(w)
  {
    hide SafeFrom;
    if w.page.requests[i].phase.Idle? {
      UnauthorizedMeanwhile(Step(true, w, Send(i)), s, i);
      UnsafeBefore(w, Send(i));
    } else {
      UnauthorizedMeanwhile(w, s, i);
    }
  }

  lemma DirectMeetsUnanswered(w: World, i: nat)
    requires PageInv(w.page) && CalmInv(w) && NoneInFlight(w.page)
    requires i < |w.page.requests| && (w.page.requests[i].phase.Idle? || w.page.requests[i].phase.First?)
    ensures !SafeFrom(Step(true, w, DirectSend))
  {
    var v, s := Step(true, w, DirectSend), Around(|w.page.directs|);
    assert w.page.cookie == Some(w.server.valid);
    if w.page.refreshPromise.Some? {
      var p := w.page.refreshPromise.value;
      assert HasPost(w.page, Locked(p)) && !InFlight(PostAt(w.page, Locked(p)));
      hide PageInv, CalmInv, SafeFrom, NoneInFlight;
      UnansweredGoesWrong(Step(true, v, RefreshBody(p)), s, i);
      UnsafeBefore(v, RefreshBody(p));
    } else {
      UnansweredGoesWrong(v, s, i);
    }
  }

  /**
   The onboarding page sends its own POST /auth/refresh around the lock. Whatever follows, short of faults and of
   another such POST, is safe exactly when at that moment no POST is in flight and no request is left that can
   get a first 401: one that gets it before the answer is there starts a refresh with the used-up cookie.
  */
  lemma DirectRefreshIsSafeExactly(n: nat, es: seq<Event>, w: World)
    requires IsRun(ExclusiveStep, Init(n), es, w)
    ensures SafeFrom(Step(true, w, DirectSend)) <==> NoneInFlight(w.page) && AllAnswered(w.page)
  {
    ExclusiveInv(n, es, w);
    var v := Step(true, w, DirectSend);
    if !NoneInFlight(w.page) {
      var r :| HasPost(w.page, r) && InFlight(PostAt(w.page, r));
      OverlapGoesWrong(w, DirectSend, r);
    } else if !AllAnswered(w.page) {
      var i :| 0 <= i < |w.page.requests| && (w.page.requests[i].phase.Idle? || w.page.requests[i].phase.First?);
      DirectMeetsUnanswered(w, i);
    } else {
      hide PageInv, CookieInv, OrderInv, CalmInv;
      SendingStaysCalm(w, DirectSend);
      StepKeepsInv(w, DirectSend);
      forall fs, w' | IsRun(CalmStep, v, fs, w') ensures Safe(w') {
        AnsweredRunIsSafe(v, fs, w');
      }
    }
  }

  // ----- Sign-outs -----

  /** The stored token was there from the start or came from a refresh, and no sign-out has been made since. */
  ghost predicate TokenInv(pg: Page) {
    pg.accessToken.Some? ==>
      || (pg.accessToken.value == 0 && pg.clears == 0)
      || exists r :: HasPost(pg, r) && PostAt(pg, r) == Settled(true, pg.accessToken.value, pg.clears)
  }

  /** The body of a refresh stores the token. */
  lemma BodyStoresToken(w: World, e: Event)
    requires Enabled(w, e) && (e.RefreshBody? || e.DirectBody?)
    ensures TokenInv(Step(true, w, e).page)
  {
    var pg' := Step(true, w, e).page;
    var r := if e.RefreshBody? then Locked(e.p) else Around(e.d);
    assert HasPost(pg', r) && PostAt(pg', r) == Settled(true, pg'.accessToken.value, pg'.clears);
  }

  /** What is settled stays settled, and any other step stores no token and at most removes one. */
  lemma SettledStays(w: World, e: Event, r: Ref)
    requires Enabled(w, e) && HasPost(w.page, r) && PostAt(w.page, r).Settled?
    ensures HasPost(Step(true, w, e).page, r) && PostAt(Step(true, w, e).page, r) == PostAt(w.page, r)
  {
    hide Step;
    match r
    case Locked(p) => SettledPostStays(w, e, p);
    case Around(d) => SettledDirectStays(w, e, d);
  }

  lemma SettledDirectStays(w: World, e: Event, d: nat)
    requires Enabled(w, e) && HasPost(w.page, Around(d)) && w.page.directs[d].post.Settled?
    ensures d < |Step(true, w, e).page.directs| && Step(true, w, e).page.directs[d] == w.page.directs[d]
  {
  }

  lemma NoTokenStored(w: World, e: Event)
    requires Enabled(w, e) && !e.RefreshBody? && !e.DirectBody?
    ensures var pg, pg' := w.page, Step(true, w, e).page;
      pg'.accessToken.None? || (pg'.accessToken == pg.accessToken && pg'.clears == pg.clears)
  {
  }

  lemma {:induction false} StepKeepsToken(w: World, e: Event)
    requires TokenInv(w.page) && Enabled(w, e)
    ensures TokenInv(Step(true, w, e).page)
  {
    hide Step, Enabled;
    var pg, pg' := w.page, Step(true, w, e).page;
    if e.RefreshBody? || e.DirectBody? {
      BodyStoresToken(w, e);
    } else {
      NoTokenStored(w, e);
      var token := pg.accessToken;
      if r :| token.Some? && HasPost(pg, r) && PostAt(pg, r) == Settled(true, token.value, pg.clears) {
        SettledStays(w, e, r);
      }
    }
  }

  /**
   A stored token came from a refresh that ended after the last sign-out, or is the first one and nobody has
   signed out.
  */
  lemma {:induction false} TokenOutlivesNoSignOut(w: World, es: seq<Event>, w': World)
    requires TokenInv(w.page) && IsRun(LockedStep, w, es, w')
    ensures TokenInv(w'.page)
    decreases |es|
  {
    if es != [] {
      hide TokenInv, Step;
      StepKeepsToken(w, es[0]);
      TokenOutlivesNoSignOut(Step(true, w, es[0]), es[1..], w');
    }
  }

  /** Nothing is left that could store a token: every POST is over, and no request can get a first 401. */
  ghost predicate NothingPending(pg: Page) {
    && (forall p :: 0 <= p < |pg.posts| ==> pg.posts[p].Settled?)
    && (forall d :: 0 <= d < |pg.directs| ==> DirectIsOver(pg.directs[d]))
    && AllAnswered(pg)
  }

  ghost predicate StaysSignedOut(w: World) {
    forall es, w' :: IsRun(CalmStep, w, es, w') ==> w'.page.accessToken.None?
  }

  /** With nothing pending, calm steps leave server, cookie and logouts alone, store no token and start nothing. */
  lemma NothingPendingStays(w: World, e: Event)
    requires NothingPending(w.page) && Enabled(w, e) && IsCalm(e)
    ensures var w' := Step(true, w, e);
      && NothingPending(w'.page) && w'.server == w.server && w'.page.logouts == w.page.logouts
      && (w.page.accessToken.None? ==> w'.page.accessToken.None?)
  {
  }

  lemma {:induction false} NothingPendingRun(w: World, es: seq<Event>, w': World)
    requires NothingPending(w.page) && w.page.accessToken.None? && IsRun(CalmStep, w, es, w')
    ensures w'.page.accessToken.None?
    decreases |es|
  {
    if es != [] {
      hide NothingPending, Step, IsCalm;
      NothingPendingStays(w, es[0]);
      NothingPendingRun(Step(true, w, es[0]), es[1..], w');
    }
  }

  lemma SignedInNow(w: World)
    requires w.page.accessToken.Some?
    ensures !StaysSignedOut(w)
  {
    assert IsRun(CalmStep, w, [], w);
  }

  lemma SignedInBefore(w: World, e: Event)
    requires Enabled(w, e) && IsCalm(e) && !StaysSignedOut(Step(true, w, e))
    ensures !StaysSignedOut(w)
  {
    var v := Step(true, w, e);
    var es, w' :| IsRun(CalmStep, v, es, w') && w'.page.accessToken.Some?;
    RunFirst(CalmStep, w, e, es, w');
  }

  lemma ParsingSignsIn(w: World, r: Ref)
    requires HasPost(w.page, r) && PostAt(w.page, r).Parsing?
    ensures !StaysSignedOut(w)
  {
    hide StaysSignedOut;
    var e := if r.Locked? then RefreshBody(r.p) else DirectBody(r.d);
    SignedInNow(Step(true, w, e));
    SignedInBefore(w, e);
  }

  lemma AcceptedSignsIn(w: World, r: Ref)
    requires HasPost(w.page, r) && PostAt(w.page, r).Accepted?
    ensures !StaysSignedOut(w)
  {
    hide StaysSignedOut;
    var e := if r.Locked? then RefreshHeaders(r.p) else DirectHeaders(r.d);
    ParsingSignsIn(Step(true, w, e), r);
    SignedInBefore(w, e);
  }

  lemma SentSignsIn(w: World, r: Ref)
    requires w.server.alive && HasPost(w.page, r) && PostAt(w.page, r) == Sent(Some(w.server.valid))
    ensures !StaysSignedOut(w)
  {
    hide StaysSignedOut;
    AcceptedSignsIn(Step(true, w, ServePost(r)), r);
    SignedInBefore(w, ServePost(r));
  }

  lemma UnansweredSignsIn(w: World, i: nat)
    requires w.server.alive && w.page.cookie == Some(w.server.valid) && w.page.refreshPromise.None?
    requires i < |w.page.requests| && (w.page.requests[i].phase.Idle? || w.page.requests[i].phase.First?)
    ensures !StaysSignedOut(w)
    decreases w.page.requests[i].phase.Idle?
  {
    hide StaysSignedOut;
    if w.page.requests[i].phase.Idle? {
      UnansweredSignsIn(Step(true, w, Send(i)), i);
      SignedInBefore(w, Send(i));
    } else {
      SentSignsIn(Step(true, w, FirstResponse(i, true)), Locked(|w.page.posts|));
      SignedInBefore(w, FirstResponse(i, true));
    }
  }

  lemma SignOutStaysCalm(w: World)
    requires CalmInv(w)
    ensures CalmInv(Step(true, w, ClearAuth))
  {
    hide CalmInv;
    CalmServer(w);
    NothingSent(w, Step(true, w, ClearAuth));
  }

  lemma UnsettledSignsIn(w: World, r: Ref)
    requires CalmInv(w) && HasPost(w.page, r) && !PostAt(w.page, r).Settled?
    ensures !StaysSignedOut(w)
  {
    hide StaysSignedOut;
    CalmPosts(w, r);
    CalmServer(w);
    if PostAt(w.page, r).Sent? {
      SentSignsIn(w, r);
    } else if PostAt(w.page, r).Accepted? {
      AcceptedSignsIn(w, r);
    } else {
      ParsingSignsIn(w, r);
    }
  }

  lemma NothingPendingIsCalm(w: World)
    requires CalmInv(w) && LockInv(w.page) && (forall r :: HasPost(w.page, r) ==> PostAt(w.page, r).Settled?)
    ensures w.page.cookie == Some(w.server.valid) && w.page.refreshPromise.None?
    ensures forall p :: 0 <= p < |w.page.posts| ==> w.page.posts[p].Settled?
    ensures forall d :: 0 <= d < |w.page.directs| ==> DirectIsOver(w.page.directs[d])
  {
    forall p | 0 <= p < |w.page.posts| ensures w.page.posts[p].Settled? {
      assert HasPost(w.page, Locked(p));
    }
    forall d | 0 <= d < |w.page.directs| ensures DirectIsOver(w.page.directs[d]) {
      assert HasPost(w.page, Around(d));
    }
  }

  /**
   A sign-out is undone without anybody signing in again: it lasts through every calm continuation exactly when
   at that moment no POST is outstanding and no request is left that can get a first 401.
  */
  lemma SignOutLastsExactly(n: nat, es: seq<Event>, w: World)
    requires IsRun(ExclusiveStep, Init(n), es, w)
    ensures StaysSignedOut(Step(true, w, ClearAuth)) <==> NothingPending(w.page)
  {
    ExclusiveInv(n, es, w);
    var v := Step(true, w, ClearAuth);
    SignOutStaysCalm(w);
    if NothingPending(w.page) {
      hide Inv, CalmInv;
      forall fs, w' | IsRun(CalmStep, v, fs, w') ensures w'.page.accessToken.None? {
        NothingPendingRun(v, fs, w');
      }
    } else if r :| HasPost(w.page, r) && !PostAt(w.page, r).Settled? {
      assert HasPost(v.page, r) && PostAt(v.page, r) == PostAt(w.page, r);
      hide Inv, CalmInv;
      UnsettledSignsIn(v, r);
    } else {
      NothingPendingIsCalm(w);
      CalmServer(w);
      hide PageInv, CookieInv, OrderInv, CalmInv;
      var i :| 0 <= i < |w.page.requests| && (w.page.requests[i].phase.Idle? || w.page.requests[i].phase.First?);
      UnansweredSignsIn(v, i);
    }
  }

  // ----- Faults -----

  /** The page is at rest with the valid refresh token of a live session. */
  ghost predicate Holds(w: World) {
    w.server.alive && w.page.cookie == Some(w.server.valid) && NoneInFlight(w.page)
  }

  /** Left to itself the page can come to rest with the valid refresh token. */
  ghost predicate Recoverable(w: World) {
    exists es, w' :: IsRun(CalmStep, w, es, w') && Holds(w')
  }

  /** Without refreshes around the lock, a POST not yet served carries what is still in the jar. */
  ghost predicate JarInv(pg: Page) {
    forall p :: 0 <= p < |pg.posts| && pg.posts[p].Sent? ==> pg.posts[p].cookie == pg.cookie
  }

  /** Nobody has refreshed around the lock or sent POST /auth/logout. */
  predicate OnlyLock(pg: Page) {
    pg.directs == [] && pg.logouts == []
  }

  ghost predicate LoneInv(w: World) {
    Inv(w) && OnlyLock(w.page) && JarInv(w.page)
  }

  lemma UnsettledPosts(pg: Page, p: nat, q: nat)
    requires PageInv(pg) && p < |pg.posts| && q < |pg.posts|
    ensures !pg.posts[p].Settled? && !pg.posts[q].Settled? ==> p == q
  {
    UnsettledPost(pg, p);
    UnsettledPost(pg, q);
  }

  lemma StepKeepsJar(w: World, e: Event)
    requires PageInv(w.page) && OnlyLock(w.page) && JarInv(w.page)
    requires Enabled(w, e) && !e.DirectSend? && !e.LogoutSend?
    ensures JarInv(Step(true, w, e).page) && OnlyLock(Step(true, w, e).page)
  {
    hide PageInv;
    if e.RefreshHeaders? {
      var pg' := Step(true, w, e).page;
      forall p | 0 <= p < |pg'.posts| ensures !pg'.posts[p].Sent? {
        UnsettledPosts(w.page, p, e.p);
      }
    }
  }

  lemma StepFromOnlyLock(w: World, e: Event)
    requires Enabled(w, e) && OnlyLock(Step(true, w, e).page)
    ensures OnlyLock(w.page) && !e.DirectSend? && !e.LogoutSend?
  {
  }

  lemma {:induction false} RunKeepsLone(w: World, es: seq<Event>, w': World)
    requires IsRun(LockedStep, w, es, w') && OnlyLock(w'.page)
    ensures OnlyLock(w.page)
    ensures LoneInv(w) ==> LoneInv(w')
    decreases |es|
  {
    if es != [] {
      hide Inv, JarInv, Step;
      RunKeepsLone(Step(true, w, es[0]), es[1..], w');
      StepFromOnlyLock(w, es[0]);
      if LoneInv(w) {
        StepKeepsInv(w, es[0]);
        StepKeepsLone(w, es[0]);
      }
    }
  }

  lemma StepKeepsLone(w: World, e: Event)
    requires LoneInv(w) && Enabled(w, e) && !e.DirectSend? && !e.LogoutSend?
    ensures LoneInv(Step(true, w, e))
  {
    hide PageInv, CookieInv, OrderInv, JarInv, Step;
    StepKeepsInv(w, e);
    StepKeepsJar(w, e);
  }

  lemma ReachableLone(w: World)
    requires IsReachable(w) && OnlyLock(w.page)
    ensures LoneInv(w)
  {
    var n: nat :| Reachable(LockedStep, Init(n), w);
    var es :| IsRun(LockedStep, Init(n), es, w);
    InitInv(n);
    RunKeepsLone(Init(n), es, w);
  }

  predicate Wipes(post: Post) {
    post.Refused? && post.wiping
  }

  /** The valid token is on its way, or in the jar with no answer on its way that removes it. */
  ghost predicate InReach(w: World) {
    && w.server.alive
    && (|| (exists p :: 0 <= p < |w.page.posts| && Carries(w.page.posts[p], w.server.valid))
        || (w.page.cookie == Some(w.server.valid) && forall p :: 0 <= p < |w.page.posts| ==> !Wipes(w.page.posts[p])))
  }

  lemma OutOfReachServe(w: World, e: Event)
    requires LoneInv(w) && !InReach(w) && e.ServePost? && Enabled(w, e)
    ensures !InReach(Step(true, w, e))
  {
    var w' := Step(true, w, e);
    assert Wipes(w'.page.posts[e.r.p]) || !w'.server.alive || w'.page.cookie != Some(w'.server.valid);
  }

  lemma OutOfReachHeaders(w: World, e: Event)
    requires LoneInv(w) && !InReach(w) && e.RefreshHeaders? && Enabled(w, e)
    ensures !InReach(Step(true, w, e))
  {
    var w' := Step(true, w, e);
    if w.server.alive {
      assert w.page.posts[e.p].Refused?;
      forall q | 0 <= q < |w.page.posts| && q != e.p ensures w.page.posts[q].Settled? {
        UnsettledPosts(w.page, q, e.p);
      }
    }
  }

  lemma OutOfReachSend(w: World, e: Event)
    requires LoneInv(w) && !InReach(w) && e.FirstResponse? && Enabled(w, e)
    ensures !InReach(Step(true, w, e))
  {
    if w.page.refreshPromise.None? {
      forall q | 0 <= q < |w.page.posts| ensures w.page.posts[q].Settled? {
        UnsettledPost(w.page, q);
      }
    }
  }

  lemma OutOfReachStays(w: World, e: Event)
    requires LoneInv(w) && !InReach(w) && Enabled(w, e) && IsCalm(e)
    ensures !InReach(Step(true, w, e))
  {
    hide Inv, JarInv;
    if e.ServePost? {
      OutOfReachServe(w, e);
    } else if e.RefreshHeaders? {
      OutOfReachHeaders(w, e);
    } else if e.FirstResponse? {
      OutOfReachSend(w, e);
    } else if e.RefreshBody? {
      var w' := Step(true, w, e);
      assert forall q :: 0 <= q < |w.page.posts| ==> (Wipes(w'.page.posts[q]) <==> Wipes(w.page.posts[q]));
    }
  }

  lemma {:induction false} OutOfReachForever(w: World, es: seq<Event>, w': World)
    requires LoneInv(w) && !InReach(w) && IsRun(CalmStep, w, es, w')
    ensures !Holds(w')
    decreases |es|
  {
    if es == [] {
      if Holds(w) {
        forall p | 0 <= p < |w.page.posts| ensures !Wipes(w.page.posts[p]) {
          assert HasPost(w.page, Locked(p)) && !InFlight(PostAt(w.page, Locked(p)));
        }
      }
    } else {
      hide LoneInv, InReach, Step, Enabled;
      OutOfReachStays(w, es[0]);
      StepKeepsLone(w, es[0]);
      OutOfReachForever(Step(true, w, es[0]), es[1..], w');
    }
  }

  lemma HeldBefore(w: World, e: Event)
    requires Enabled(w, e) && IsCalm(e) && Recoverable(Step(true, w, e))
    ensures Recoverable(w)
  {
    var v := Step(true, w, e);
    var es, w' :| IsRun(CalmStep, v, es, w') && Holds(w');
    RunFirst(CalmStep, w, e, es, w');
  }

  lemma HeldNow(w: World)
    requires Holds(w)
    ensures Recoverable(w)
  {
    assert IsRun(CalmStep, w, [], w);
  }

  /** The answer of the only POST under way arrives, and leaves the valid token in the jar. */
  lemma LastAnswerArrives(w: World, p: nat)
    requires LoneInv(w) && w.server.alive && p < |w.page.posts| && IsAnswer(w.page.posts[p])
    requires w.page.posts[p].Accepted? || (w.page.cookie == Some(w.server.valid) && !Wipes(w.page.posts[p]))
    ensures Recoverable(w)
  {
    var v := Step(true, w, RefreshHeaders(p));
    if w.page.posts[p].Accepted? { AcceptedIsValid(w, Locked(p)); }
    forall r | HasPost(v.page, r) ensures !InFlight(PostAt(v.page, r)) {
      UnsettledPosts(w.page, r.p, p);
    }
    hide Recoverable, Inv;
    HeldNow(v);
    HeldBefore(w, RefreshHeaders(p));
  }

  lemma CarriedIsBroughtBack(w: World, p: nat)
    requires LoneInv(w) && w.server.alive && p < |w.page.posts| && Carries(w.page.posts[p], w.server.valid)
    ensures Recoverable(w)
  {
    hide Recoverable, Inv, JarInv;
    if w.page.posts[p].Accepted? {
      LastAnswerArrives(w, p);
    } else {
      StepKeepsLone(w, ServePost(Locked(p)));
      LastAnswerArrives(Step(true, w, ServePost(Locked(p))), p);
      HeldBefore(w, ServePost(Locked(p)));
    }
  }

  lemma JarIsKept(w: World)
    requires LoneInv(w) && w.server.alive && w.page.cookie == Some(w.server.valid)
    requires forall p :: 0 <= p < |w.page.posts| ==> !Wipes(w.page.posts[p])
    ensures Recoverable(w)
  {
    if r :| HasPost(w.page, r) && InFlight(PostAt(w.page, r)) {
      hide Inv, Recoverable;
      if w.page.posts[r.p].Sent? {
        CarriedIsBroughtBack(w, r.p);
      } else {
        LastAnswerArrives(w, r.p);
      }
    } else {
      HeldNow(w);
    }
  }

  /** The page can recover exactly while the session lives and the valid token is on its way, or in the jar to stay. */
  lemma RecoverableExactly(w: World)
    requires LoneInv(w)
    ensures Recoverable(w) <==> InReach(w)
  {
    hide LoneInv;
    if Recoverable(w) {
      var es, w' :| IsRun(CalmStep, w, es, w') && Holds(w');
      if !InReach(w) {
        OutOfReachForever(w, es, w');
      }
    }
    if InReach(w) {
      if p :| 0 <= p < |w.page.posts| && Carries(w.page.posts[p], w.server.valid) {
        CarriedIsBroughtBack(w, p);
      } else {
        JarIsKept(w);
      }
    }
  }

  /** The answer to an accepted POST is lost, or the server refuses with an answer that removes the cookie. */
  predicate IsFatal(w: World, e: Event)
    requires Enabled(w, e)
  {
    (e.BreakPost? && PostAt(w.page, e.r).Accepted?) || (e.TurnAway? && e.wipes)
  }

  lemma FaultInReach(w: World, e: Event)
    requires LoneInv(w) && InReach(w) && Enabled(w, e) && IsFault(e)
    ensures InReach(Step(true, w, e)) <==> !IsFatal(w, e)
  {
    var w' := Step(true, w, e);
    var p := e.r.p;
    forall q | 0 <= q < |w.page.posts| && q != p ensures w.page.posts[q].Settled? && w'.page.posts[q].Settled? {
      UnsettledPosts(w.page, q, p);
    }
    if w.page.posts[p].Accepted? { AcceptedIsValid(w, e.r); }
    hide Inv;
    if e.TurnAway? && e.wipes {
      assert Wipes(w'.page.posts[p]);
    }
  }

  /** With the lock alone, exactly these two faults are not survived. */
  lemma FaultIsSurvivedExactly(w: World, e: Event)
    requires IsReachable(w) && OnlyLock(w.page) && Recoverable(w) && Enabled(w, e) && IsFault(e)
    ensures Recoverable(Step(true, w, e)) <==> !IsFatal(w, e)
  {
    ReachableLone(w);
    StepKeepsLone(w, e);
    hide LoneInv, Recoverable, InReach, IsFatal;
    RecoverableExactly(w);
    RecoverableExactly(Step(true, w, e));
    FaultInReach(w, e);
  }

  // ----- Lost answers -----

  /** The valid token is in the cookie jar, on its way to the server, or on its way back. */
  ghost predicate Carried(w: World) {
    || w.page.cookie == Some(w.server.valid)
    || exists r :: HasPost(w.page, r) && Carries(PostAt(w.page, r), w.server.valid)
  }

  lemma StillNowhere(w: World, w': World, r: Ref)
    requires !Carried(w) && w'.server.valid == w.server.valid && w'.page.cookie != Some(w.server.valid)
    requires ChangesOnly(w.page, w'.page, r)
    requires HasPost(w'.page, r) ==> !Carries(PostAt(w'.page, r), w.server.valid)
    ensures !Carried(w')
  {
    forall s | HasPost(w'.page, s) ensures !Carries(PostAt(w'.page, s), w'.server.valid) {
      assert s != r ==> HasPost(w.page, s) && PostAt(w'.page, s) == PostAt(w.page, s);
    }
  }

  lemma NotCarried(w: World, r: Ref)
    requires !Carried(w)
    ensures w.page.cookie != Some(w.server.valid)
    ensures HasPost(w.page, r) ==> !Carries(PostAt(w.page, r), w.server.valid)
  {
  }

  lemma UncarriedPostEvent(w: World, e: Event)
    requires !Carried(w) && Enabled(w, e) && ConcernsPosts(e) && !e.DirectHeaders?
    ensures !Carried(Step(true, w, e))
  {
    var r := if e.RefreshHeaders? || e.RefreshBody? then Locked(e.p) else if e.DirectBody? then Around(e.d) else e.r;
    NotCarried(w, r);
    hide Carried;
    StillNowhere(w, Step(true, w, e), r);
  }

  /** A direct call may join a refresh it has just started. */
  lemma UncarriedDirectHeaders(w: World, d: nat)
    requires !Carried(w) && Enabled(w, DirectHeaders(d))
    ensures !Carried(Step(true, w, DirectHeaders(d)))
  {
    NotCarried(w, Around(d));
    hide Carried;
    var w' := Step(true, w, DirectHeaders(d));
    var half := w.(page := SetDirect(ApplyCookie(w.page, w.page.directs[d].post), d, w'.page.directs[d]));
    StillNowhere(w, half, Around(d));
    StillNowhere(half, w', Locked(|w.page.posts|));
  }

  lemma UncarriedCallEvent(w: World, e: Event)
    requires !Carried(w) && Enabled(w, e) && !ConcernsPosts(e)
    ensures !Carried(Step(true, w, e))
  {
    var r := if e.DirectResume? then Around(e.d) else if e.DirectSend? then Around(|w.page.directs|)
      else Locked(|w.page.posts|);
    NotCarried(w, r);
    hide Carried;
    StillNowhere(w, Step(true, w, e), r);
  }

  lemma UncarriedStays(w: World, e: Event)
    requires !Carried(w) && Enabled(w, e)
    ensures !Carried(Step(true, w, e))
  {
    hide Carried, Enabled, Step;
    if e.DirectHeaders? {
      UncarriedDirectHeaders(w, e.d);
    } else if ConcernsPosts(e) {
      UncarriedPostEvent(w, e);
    } else {
      UncarriedCallEvent(w, e);
    }
  }

  /** From post `k` on no refresh of the lock has succeeded or can do so with an answer that is already there. */
  ghost predicate NoSuccessFrom(pg: Page, k: nat) {
    forall p :: k <= p < |pg.posts| ==> !pg.posts[p].Parsing? && !Resolved(pg, p, true)
  }

  lemma NoSuccessStays(w: World, e: Event, k: nat)
    requires !Carried(w) && NoSuccessFrom(w.page, k) && Enabled(w, e)
    ensures NoSuccessFrom(Step(true, w, e).page, k)
  {
    var pg, pg' := w.page, Step(true, w, e).page;
    forall p | k <= p < |pg'.posts| ensures !pg'.posts[p].Parsing? && !Resolved(pg', p, true) {
      if p < |pg.posts| {
        assert !pg.posts[p].Parsing? && !Resolved(pg, p, true);
        assert HasPost(w.page, Locked(p)) && PostAt(w.page, Locked(p)) == pg.posts[p];
      }
    }
  }

  lemma {:induction false} NoSuccessForever(w: World, es: seq<Event>, w': World, k: nat)
    requires !Carried(w) && NoSuccessFrom(w.page, k) && IsRun(LockedStep, w, es, w')
    ensures NoSuccessFrom(w'.page, k)
    decreases |es|
  {
    if es != [] {
      hide Carried, NoSuccessFrom, Step, Enabled;
      UncarriedStays(w, es[0]);
      NoSuccessStays(w, es[0], k);
      NoSuccessForever(Step(true, w, es[0]), es[1..], w', k);
    }
  }

  /** Once the answer to an accepted POST is lost, the valid token is nowhere. */
  lemma LostTokenIsNowhere(w: World, r: Ref)
    requires CookieInv(w) && HasPost(w.page, r) && PostAt(w.page, r).Accepted?
    ensures !Carried(Step(true, w, BreakPost(r)))
  {
    var l := Step(true, w, BreakPost(r));
    AcceptedIsValid(w, r);
    forall s | HasPost(l.page, s) ensures !Carries(PostAt(l.page, s), l.server.valid) {
      assert HasPost(w.page, s) && (s != r ==> PostAt(l.page, s) == PostAt(w.page, s));
    }
  }

  /**
   Then the waiting refresh and every later one of the lock fails, in every continuation, with or without direct
   calls.
  */
  lemma LostAnswerIsFatal(w: World, r: Ref, es: seq<Event>, w': World)
    requires IsReachable(w) && HasPost(w.page, r) && PostAt(w.page, r).Accepted?
    requires IsRun(LockedStep, Step(true, w, BreakPost(r)), es, w')
    ensures forall q :: (if r.Locked? then r.p else |w.page.posts|) <= q < |w'.page.posts| ==>
      !Resolved(w'.page, q, true)
  {
    ReachableInv(w);
    var l, k := Step(true, w, BreakPost(r)), if r.Locked? then r.p else |w.page.posts|;
    if r.Locked? {
      UnsettledPost(w.page, r.p);
    }
    LostTokenIsNowhere(w, r);
    hide CookieInv, OrderInv, Carried;
    NoSuccessForever(l, es, w', k);
  }

  // ----- A direct answer that comes in late -----

  ghost predicate ExclusiveRunTo(n: nat, w: World) {
    Reachable(ExclusiveStep, Init(n), w)
  }

  lemma NextIsExclusive(n: nat, w: World, e: Event)
    requires ExclusiveRunTo(n, w) && Enabled(w, e) && ExclusiveAt(w, e)
    ensures ExclusiveRunTo(n, Step(true, w, e))
  {
    ReachableStep(ExclusiveStep, Init(n), w, e);
  }

  /** The page sends a POST around the lock while nothing else goes on. */
  lemma DirectSent() returns (w: World)
    ensures ExclusiveRunTo(1, w)
    ensures w == World(
      Page(Some(0), 0, None, Some(0), [], [Request(Idle, 0, 0)], [Posting(Sent(Some(0)), false)], []),
      Server(true, 0, 0))
  {
    w := World(Page(Some(0), 0, None, Some(0), [], [Request(Idle, 0, 0)], [], []), Server(true, 0, 0));
    assert Init(1).page.requests == w.page.requests;
    InitialIsReachable(ExclusiveStep, Init(1));
    hide ExclusiveRunTo;
    NextIsExclusive(1, w, DirectSend);
    w := Step(true, w, DirectSend);
  }

  /** The headers of the answer have arrived, its body has not. */
  lemma DirectBodyPending() returns (w: World)
    ensures ExclusiveRunTo(1, w)
    ensures w == World(
      Page(Some(0), 0, None, Some(1), [], [Request(Idle, 0, 0)], [Posting(Parsing(1), false)], []),
      Server(true, 1, 0))
  {
    w := DirectSent();
    hide ExclusiveRunTo, NoneInFlight;
    NextIsExclusive(1, w, ServePost(Around(0)));
    w := Step(true, w, ServePost(Around(0)));
    assert w.page.directs == [Posting(Accepted(1), false)];
    NextIsExclusive(1, w, DirectHeaders(0));
    w := Step(true, w, DirectHeaders(0));
    assert w.page.directs == [Posting(Parsing(1), false)];
  }

  /** Meanwhile a request gets a 401 and starts a refresh. */
  lemma LockStarts() returns (w: World)
    ensures ExclusiveRunTo(1, w)
    ensures w == World(
      Page(Some(0), 0, Some(0), Some(1), [Sent(Some(1))], [Request(Waiting(0), 1, 1)],
        [Posting(Parsing(1), false)], []),
      Server(true, 1, 0))
  {
    w := DirectBodyPending();
    hide ExclusiveRunTo;
    NextIsExclusive(1, w, Send(0));
    w := Step(true, w, Send(0));
    assert w.page.requests == [Request(First, 1, 0)];
    NextIsExclusive(1, w, FirstResponse(0, true));
    w := Step(true, w, FirstResponse(0, true));
    assert w.page.requests == [Request(Waiting(0), 1, 1)];
  }

  /** The lock completes it before the body of the direct answer is there. */
  lemma LockOvertakes() returns (w: World)
    ensures ExclusiveRunTo(1, w)
    ensures w == World(
      Page(Some(2), 0, None, Some(2), [Settled(true, 2, 0)], [Request(Waiting(0), 1, 1)],
        [Posting(Parsing(1), false)], []),
      Server(true, 2, 0))
  {
    w := LockStarts();
    hide ExclusiveRunTo, NoneInFlight;
    NextIsExclusive(1, w, ServePost(Locked(0)));
    w := Step(true, w, ServePost(Locked(0)));
    assert w.page.posts == [Accepted(2)];
    NextIsExclusive(1, w, RefreshHeaders(0));
    w := Step(true, w, RefreshHeaders(0));
    assert w.page.posts == [Parsing(2)];
    NextIsExclusive(1, w, RefreshBody(0));
    w := Step(true, w, RefreshBody(0));
    assert w.page.posts == [Settled(true, 2, 0)];
  }

  /** A fault-free exclusive run whose retry carries an older token than the refresh it waited for brought. */
  lemma LateBodySpoilsARetry() returns (w: World)
    ensures ExclusiveRunTo(1, w)
    ensures w.page.posts == [Settled(true, 2, 0)] && w.page.requests == [Request(Retry(0, Some(1)), 2, 1)]
  {
    w := LockOvertakes();
    hide ExclusiveRunTo;
    NextIsExclusive(1, w, DirectBody(0));
    w := Step(true, w, DirectBody(0));
    NextIsExclusive(1, w, Resume(0));
    w := Step(true, w, Resume(0));
  }

  // ----- Without the lock -----

  /** The variant without the lock; only what the page and the server do by themselves. */
  function LocklessStep(w: World, e: Event): World
    requires Enabled(w, e) && IsProtocol(e)
  {
    Step(false, w, e)
  }

  ghost predicate LocklessRunTo(w: World) {
    Reachable(LocklessStep, Init(2), w)
  }

  lemma NextIsLockless(w: World, e: Event)
    requires LocklessRunTo(w) && Enabled(w, e) && IsProtocol(e)
    ensures LocklessRunTo(Step(false, w, e))
  {
    ReachableStep(LocklessStep, Init(2), w, e);
  }

  lemma LocklessTwoRequests() returns (w: World)
    ensures LocklessRunTo(w)
    ensures w == World(
      Page(Some(0), 0, None, Some(0), [], [Request(First, 1, 0), Request(First, 1, 0)], [], []), Server(true, 0, 0))
  {
    var idle := Request(Idle, 0, 0);
    w := World(Page(Some(0), 0, None, Some(0), [], [idle, idle], [], []), Server(true, 0, 0));
    assert Init(2).page.requests == [idle, idle];
    InitialIsReachable(LocklessStep, Init(2));
    NextIsLockless(w, Send(0));
    w := Step(false, w, Send(0));
    assert w.page.requests == [Request(First, 1, 0), idle];
    NextIsLockless(w, Send(1));
    w := Step(false, w, Send(1));
  }

  /** Both requests get a 401 and, without the lock, each sends its own POST with the same cookie. */
  lemma LocklessTwoPosts() returns (w: World)
    ensures LocklessRunTo(w)
    ensures w == World(
      Page(Some(0), 0, Some(1), Some(0), [Sent(Some(0)), Sent(Some(0))],
        [Request(Waiting(0), 1, 1), Request(Waiting(1), 1, 1)], [], []),
      Server(true, 0, 0))
  {
    hide LocklessRunTo;
    w := LocklessTwoRequests();
    NextIsLockless(w, FirstResponse(0, true));
    w := Step(false, w, FirstResponse(0, true));
    assert w.page.posts == [Sent(Some(0))] && w.page.requests == [Request(Waiting(0), 1, 1), Request(First, 1, 0)];
    NextIsLockless(w, FirstResponse(1, true));
    w := Step(false, w, FirstResponse(1, true));
    assert w.page.posts == [Sent(Some(0)), Sent(Some(0))];
  }

  ghost predicate LocklessLogout(w: World) {
    && LocklessRunTo(w)
    && w.server.alive && w.server.consumed == 1
    && |w.page.requests| == 2 && w.page.requests[1].phase == Done(Expired, Some(1))
  }

  /**
   The same machine without the shared promise: two requests with a 401 each, no fault, a live
   session, and the second one logs the user out. The run is the one the lock was added for.
  */
  lemma WithoutLockARequestLogsOut()
    ensures exists w :: LocklessLogout(w)
  {
    hide LocklessRunTo;
    var w := LocklessTwoPosts();
    NextIsLockless(w, ServePost(Locked(0)));
    w := Step(false, w, ServePost(Locked(0)));
    NextIsLockless(w, ServePost(Locked(1)));
    w := Step(false, w, ServePost(Locked(1)));
    assert w.page.posts == [Accepted(1), Refused(true, true)];
    NextIsLockless(w, RefreshHeaders(1));
    w := Step(false, w, RefreshHeaders(1));
    NextIsLockless(w, Resume(1));
    w := Step(false, w, Resume(1));
    assert LocklessLogout(w);
  }
}
