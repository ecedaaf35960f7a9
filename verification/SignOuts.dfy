/** `POST /auth/logout`, which the buttons send before they call `logout()`: what it ends, and what it does not. */
module SignOuts {
  import opened Options
  import opened Runs
  import opened TokenRefresh
  import opened RefreshSafety

  /** Calm steps, and those of a POST /auth/logout that is answered. */
  predicate IsLogoutCalm(e: Event) {
    IsCalm(e) || e.ServeLogout? || (e.LogoutEnd? && e.answered)
  }

  function LogoutStep(w: World, e: Event): World
    requires Enabled(w, e) && IsLogoutCalm(e)
  {
    Step(true, w, e)
  }

  // ----- When the answer is there -----

  /** No POST is left that the server could accept or whose token could still be stored. */
  ghost predicate NoTokenComing(w: World) {
    forall r :: HasPost(w.page, r) ==>
      var post := PostAt(w.page, r);
      && !post.Parsing? && !post.Accepted?
      && !(w.server.alive && post == Sent(Some(w.server.valid)))
  }

  ghost predicate Closed(w: World) {
    w.page.accessToken.None? && NoTokenComing(w) && (w.server.alive ==> w.page.cookie != Some(w.server.valid))
  }

  /** Only the POST `r` moves, and to nothing that brings a token. */
  lemma StaysClosed(w: World, w': World, r: Ref)
    requires Closed(w) && w'.server.valid == w.server.valid && w'.server.alive == w.server.alive
    requires w'.page.accessToken.None? && (w'.page.cookie == w.page.cookie || w'.page.cookie.None?)
    requires ChangesOnly(w.page, w'.page, r)
    requires HasPost(w'.page, r) ==>
      PostAt(w'.page, r).Refused? || PostAt(w'.page, r).Settled? || PostAt(w'.page, r) == Sent(w.page.cookie)
    ensures Closed(w')
  {
    forall s | HasPost(w'.page, s)
      ensures var post := PostAt(w'.page, s);
        && !post.Parsing? && !post.Accepted?
        && !(w'.server.alive && post == Sent(Some(w'.server.valid)))
    {
      assert s != r ==> HasPost(w.page, s) && PostAt(w'.page, s) == PostAt(w.page, s);
    }
  }

  lemma ClosedPost(w: World, r: Ref)
    requires Closed(w) && HasPost(w.page, r)
    ensures var post := PostAt(w.page, r);
      && !post.Parsing? && !post.Accepted?
      && !(w.server.alive && post == Sent(Some(w.server.valid)))
  {
  }

  lemma ClosedPage(w: World)
    requires Closed(w)
    ensures w.page.accessToken.None?
  {
  }

  lemma ClosedPostEvent(w: World, e: Event)
    requires Closed(w) && Enabled(w, e) && IsCalm(e) && ConcernsPosts(e) && !e.DirectHeaders?
    ensures Closed(Step(true, w, e))
  {
    var r := if e.ServePost? then e.r else if e.DirectBody? then Around(e.d) else Locked(e.p);
    ClosedPost(w, r);
    ClosedPage(w);
    hide Closed;
    StaysClosed(w, Step(true, w, e), r);
  }

  /** A refused direct call may start a refresh of the lock. */
  lemma ClosedDirectHeaders(w: World, d: nat)
    requires Closed(w) && Enabled(w, DirectHeaders(d))
    ensures Closed(Step(true, w, DirectHeaders(d)))
  {
    ClosedPost(w, Around(d));
    ClosedPage(w);
    hide Closed;
    var w' := Step(true, w, DirectHeaders(d));
    var half := w.(page := SetDirect(ApplyCookie(w.page, w.page.directs[d].post), d, w'.page.directs[d]));
    StaysClosed(w, half, Around(d));
    StaysClosed(half, w', Locked(|w.page.posts|));
  }

  lemma ClosedCallEvent(w: World, e: Event)
    requires Closed(w) && Enabled(w, e) && IsCalm(e) && !ConcernsPosts(e)
    ensures Closed(Step(true, w, e))
  {
    ClosedPage(w);
    hide Closed;
    StaysClosed(w, Step(true, w, e), if e.DirectResume? then Around(e.d) else Locked(|w.page.posts|));
  }

  lemma {:induction false} ClosedRun(w: World, es: seq<Event>, w': World)
    requires Closed(w) && IsRun(CalmStep, w, es, w')
    ensures w'.page.accessToken.None?
    decreases |es|
  {
    if es != [] {
      var e := es[0];
      hide Closed, Step, IsCalm;
      if e.DirectHeaders? {
        ClosedDirectHeaders(w, e.d);
      } else if ConcernsPosts(e) {
        ClosedPostEvent(w, e);
      } else {
        ClosedCallEvent(w, e);
      }
      ClosedRun(Step(true, w, e), es[1..], w');
    } else {
      ClosedPage(w);
    }
  }

  /**
   Once POST /auth/logout is answered, the sign-out lasts exactly when no POST is left that brings a token or
   that a live session would accept. Requests still to be answered do not matter: they find no cookie.
  */
  lemma AnsweredLogoutLastsExactly(w: World, l: nat)
    requires Enabled(w, LogoutEnd(l, true))
    ensures StaysSignedOut(Step(true, w, LogoutEnd(l, true))) <==> NoTokenComing(w)
  {
    var v := Step(true, w, LogoutEnd(l, true));
    assert forall r :: HasPost(v.page, r) <==> HasPost(w.page, r);
    assert forall r :: HasPost(w.page, r) ==> PostAt(v.page, r) == PostAt(w.page, r);
    if NoTokenComing(w) {
      forall es, w' | IsRun(CalmStep, v, es, w') ensures w'.page.accessToken.None? {
        ClosedRun(v, es, w');
      }
    } else {
      var r :| HasPost(w.page, r) && !(!PostAt(w.page, r).Parsing? && !PostAt(w.page, r).Accepted?
        && !(w.server.alive && PostAt(w.page, r) == Sent(Some(w.server.valid))));
      hide StaysSignedOut;
      if PostAt(v.page, r).Parsing? {
        ParsingSignsIn(v, r);
      } else if PostAt(v.page, r).Accepted? {
        AcceptedSignsIn(v, r);
      } else {
        SentSignsIn(v, r);
      }
    }
  }

  // ----- When the POST is sent -----

  /** If the POST /auth/logout number `l` is over, the session is dead and no token is stored. */
  predicate IsFinal(w: World, l: nat) {
    l < |w.page.logouts| && w.page.logouts[l].LogoutOver? ==> !w.server.alive && w.page.accessToken.None?
  }

  ghost predicate StaysFinal(w: World, l: nat) {
    forall es, w' :: IsRun(LogoutStep, w, es, w') ==> IsFinal(w', l)
  }

  lemma NotFinalNow(w: World, l: nat)
    requires !IsFinal(w, l)
    ensures !StaysFinal(w, l)
  {
    assert IsRun(LogoutStep, w, [], w);
  }

  lemma NotFinalBefore(w: World, e: Event, l: nat)
    requires Enabled(w, e) && IsLogoutCalm(e) && !StaysFinal(Step(true, w, e), l)
    ensures !StaysFinal(w, l)
  {
    var v := Step(true, w, e);
    var es, w' :| IsRun(LogoutStep, v, es, w') && !IsFinal(w', l);
    RunFirst(LogoutStep, w, e, es, w');
  }

  /** The POST presents a token that has been used up: it is answered and the session lives on. */
  lemma UsedUpLogout(w: World, l: nat)
    requires w.server.alive && l < |w.page.logouts| && w.page.logouts[l].LogoutSent?
    requires w.page.logouts[l].cookie != Some(w.server.valid)
    ensures !StaysFinal(w, l)
  {
    hide StaysFinal;
    var v := Step(true, w, ServeLogout(l));
    NotFinalNow(Step(true, v, LogoutEnd(l, true)), l);
    NotFinalBefore(v, LogoutEnd(l, true), l);
    NotFinalBefore(w, ServeLogout(l), l);
  }

  /** A refresh is accepted before the POST is served. */
  lemma OvertakenLogout(w: World, l: nat, r: Ref)
    requires w.server.alive && l < |w.page.logouts| && w.page.logouts[l].LogoutSent?
    requires UpTo(w.page.logouts[l].cookie, w.server.valid)
    requires HasPost(w.page, r) && PostAt(w.page, r) == Sent(Some(w.server.valid))
    ensures !StaysFinal(w, l)
  {
    hide StaysFinal;
    UsedUpLogout(Step(true, w, ServePost(r)), l);
    NotFinalBefore(w, ServePost(r), l);
  }

  /** The body of a refresh arrives after everything else. */
  lemma LateTokenAfterLogout(w: World, l: nat, r: Ref)
    requires l < |w.page.logouts| && w.page.logouts[l].LogoutSent?
    requires HasPost(w.page, r) && PostAt(w.page, r).Parsing?
    ensures !StaysFinal(w, l)
  {
    hide StaysFinal;
    var e := if r.Locked? then RefreshBody(r.p) else DirectBody(r.d);
    var served := Step(true, w, ServeLogout(l));
    var over := Step(true, served, LogoutEnd(l, true));
    NotFinalNow(Step(true, over, e), l);
    NotFinalBefore(over, e, l);
    NotFinalBefore(served, LogoutEnd(l, true), l);
    NotFinalBefore(w, ServeLogout(l), l);
  }

  lemma UnansweredOvertakes(w: World, l: nat, i: nat)
    requires w.server.alive && l < |w.page.logouts| && w.page.logouts[l] == LogoutSent(w.page.cookie)
    requires w.page.cookie == Some(w.server.valid) && w.page.refreshPromise.None?
    requires i < |w.page.requests| && (w.page.requests[i].phase.Idle? || w.page.requests[i].phase.First?)
    ensures !StaysFinal(w, l)
    decreases w.page.requests[i].phase.Idle?
  {
    hide StaysFinal;
    if w.page.requests[i].phase.Idle? {
      UnansweredOvertakes(Step(true, w, Send(i)), l, i);
      NotFinalBefore(w, Send(i), l);
    } else {
      OvertakenLogout(Step(true, w, FirstResponse(i, true)), l, Locked(|w.page.posts|));
      NotFinalBefore(w, FirstResponse(i, true), l);
    }
  }

  /** The only POST under way is the one number `l` to /auth/logout, and it carries the valid token. */
  ghost predicate LogsOut(w: World, l: nat) {
    && NothingPending(w.page) && l < |w.page.logouts|
    && (forall k :: 0 <= k < |w.page.logouts| && k != l ==> w.page.logouts[k].LogoutOver?)
    && match w.page.logouts[l]
       case LogoutSent(cookie) => w.server.alive && cookie == Some(w.server.valid)
       case LogoutServed => !w.server.alive
       case LogoutOver => !w.server.alive && w.page.accessToken.None?
  }

  lemma LogsOutStays(w: World, e: Event, l: nat)
    requires LogsOut(w, l) && Enabled(w, e) && IsLogoutCalm(e)
    ensures LogsOut(Step(true, w, e), l)
  {
    if IsCalm(e) {
      NothingPendingStays(w, e);
      hide NothingPending, Step;
    } else {
      hide NothingPending, IsCalm;
      SamePending(w.page, Step(true, w, e).page);
    }
  }

  lemma SamePending(pg: Page, pg': Page)
    requires NothingPending(pg)
    requires pg'.posts == pg.posts && pg'.directs == pg.directs && pg'.requests == pg.requests
    ensures NothingPending(pg')
  {
  }

  lemma {:induction false} LogsOutRun(w: World, es: seq<Event>, w': World, l: nat)
    requires LogsOut(w, l) && IsRun(LogoutStep, w, es, w')
    ensures IsFinal(w', l)
    decreases |es|
  {
    if es != [] {
      hide LogsOut, Step, IsLogoutCalm;
      LogsOutStays(w, es[0], l);
      LogsOutRun(Step(true, w, es[0]), es[1..], w', l);
    }
  }

  lemma UnsettledOvertakes(w: World, l: nat, r: Ref)
    requires CookieInv(w) && CalmInv(w) && HasPost(w.page, r) && !PostAt(w.page, r).Settled?
    requires l == |w.page.logouts|
    ensures !StaysFinal(Step(true, w, LogoutSend), l)
  {
    CalmPosts(w, r);
    CalmServer(w);
    if PostAt(w.page, r).Accepted? { AcceptedIsValid(w, r); }
    hide CookieInv, CalmInv, StaysFinal;
    var v := Step(true, w, LogoutSend);
    assert HasPost(v.page, r) && PostAt(v.page, r) == PostAt(w.page, r);
    if PostAt(w.page, r).Sent? {
      OvertakenLogout(v, l, r);
    } else if PostAt(w.page, r).Accepted? {
      UsedUpLogout(v, l);
    } else {
      LateTokenAfterLogout(v, l, r);
    }
  }

  lemma StepKeepsLogouts(w: World, e: Event)
    requires Enabled(w, e) && !IsLogout(e)
    ensures Step(true, w, e).page.logouts == w.page.logouts
  {
  }

  lemma {:induction false} ExclusiveRunKeepsLogouts(w: World, es: seq<Event>, w': World)
    requires IsRun(ExclusiveStep, w, es, w')
    ensures w'.page.logouts == w.page.logouts
    decreases |es|
  {
    if es != [] {
      assert ExclusiveAt(w, es[0]);
      StepKeepsLogouts(w, es[0]);
      hide Step;
      ExclusiveRunKeepsLogouts(Step(true, w, es[0]), es[1..], w');
    }
  }

  /**
   The buttons send POST /auth/logout before they sign out. In every fault-free continuation in which it is
   answered this ends the session and leaves no token, exactly when as it is sent no POST is outstanding and no
   request is left that can get a first 401: a refresh that is served before makes the server revoke a used-up
   token, and one whose body comes after stores its token again.
  */
  lemma LogoutIsFinalExactly(n: nat, es: seq<Event>, w: World)
    requires IsRun(ExclusiveStep, Init(n), es, w)
    ensures StaysFinal(Step(true, w, LogoutSend), 0) <==> NothingPending(w.page)
  {
    ExclusiveInv(n, es, w);
    ExclusiveRunKeepsLogouts(Init(n), es, w);
    var v := Step(true, w, LogoutSend);
    if r :| HasPost(w.page, r) && !PostAt(w.page, r).Settled? {
      hide PageInv, OrderInv, CookieInv, CalmInv, StaysFinal;
      UnsettledOvertakes(w, 0, r);
      NotPending(w, r);
    } else {
      NothingPendingIsCalm(w);
      CalmServer(w);
      hide PageInv, CookieInv, OrderInv, CalmInv;
      if NothingPending(w.page) {
        forall fs, w' | IsRun(LogoutStep, v, fs, w') ensures IsFinal(w', 0) {
          LogsOutRun(v, fs, w', 0);
        }
      } else {
        var i :| 0 <= i < |w.page.requests|
          && (w.page.requests[i].phase.Idle? || w.page.requests[i].phase.First?);
        UnansweredOvertakes(v, 0, i);
      }
    }
  }

  lemma NotPending(w: World, r: Ref)
    requires HasPost(w.page, r) && !PostAt(w.page, r).Settled?
    ensures !NothingPending(w.page)
  {
  }
}
