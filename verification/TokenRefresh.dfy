/**
 The single-flight token refresh of `frontend/lib/api.ts` as a state machine, together with the calls of
 POST /auth/refresh that the onboarding page sends around it.

 A step is one run of JavaScript between two `await`s, one action of the server, or one
 action of the environment. Any number of requests run at once; the server keeps one valid
 refresh token, which it replaces whenever it is used. Tokens are numbered by the rotation
 that issued them.
*/
module TokenRefresh {
  import opened Options
  import opened Runs
  import opened Sums

  // ----- State -----

  /** A POST /auth/refresh, from the call of `fetch` to the end of what the page makes of the answer. */
  datatype Post =
    | Sent(cookie: Option<nat>)                    // not yet seen by the server
    | Accepted(gen: nat)                           // rotated; the answer is on its way back
    | Refused(unauthorized: bool, wiping: bool)    // not ok: with status 401, removing the cookie; on its way back
    | Parsing(gen: nat)                            // headers arrived, `res.json()` pending
    | Settled(ok: bool, gen: nat, clears: nat)     // over, with the sign-outs seen by then

  datatype Result = Finished | Expired

  datatype Phase =
    | Idle
    | First
    | Waiting(post: nat)
    | Retry(post: nat, token: Option<nat>)
    | Done(result: Result, joined: Option<nat>)

  /** A call of `request`; `fetches` and `waits` record what it has done so far. */
  datatype Request = Request(phase: Phase, fetches: nat, waits: nat)

  /** A call of `request` whose path is /auth/refresh itself: its first and second fetch are POSTs outside the lock. */
  datatype Direct =
    | Posting(post: Post, retried: bool)
    | Joined(lock: nat)              // its first POST got a 401, it waits in `tryRefresh`
    | LoggedOut(lock: nat)

  /** A POST /auth/logout, up to the call of `logout()` behind it. */
  datatype Logout = LogoutSent(cookie: Option<nat>) | LogoutServed | LogoutOver

  /**
   The page: the module variable `refreshPromise`, the auth store and the cookie jar; `posts` are those of the
   lock.
  */
  datatype Page = Page(
    accessToken: Option<nat>,
    clears: nat,
    refreshPromise: Option<nat>,
    cookie: Option<nat>,
    posts: seq<Post>,
    requests: seq<Request>,
    directs: seq<Direct>,
    logouts: seq<Logout>)

  /** `consumed` counts the refresh tokens presented after they had been used up. */
  datatype Server = Server(alive: bool, valid: nat, consumed: nat)

  datatype World = World(page: Page, server: Server)

  /** A POST of the lock, or the one of a direct call. */
  datatype Ref = Locked(p: nat) | Around(d: nat)

  predicate HasPost(pg: Page, r: Ref) {
    match r
    case Locked(p) => p < |pg.posts|
    case Around(d) => d < |pg.directs| && pg.directs[d].Posting?
  }

  function PostAt(pg: Page, r: Ref): Post
    requires HasPost(pg, r)
  {
    match r
    case Locked(p) => pg.posts[p]
    case Around(d) => pg.directs[d].post
  }

  function SetPost(pg: Page, r: Ref, post: Post): Page
    requires HasPost(pg, r)
  {
    match r
    case Locked(p) => pg.(posts := pg.posts[p := post])
    case Around(d) => SetDirect(pg, d, Posting(post, pg.directs[d].retried))
  }

  // ----- What the code of the page does between two awaits -----

  /** `tryRefresh`: join the running refresh or start one. `locked` is false only for the variant without the lock. */
  function TryRefresh(locked: bool, pg: Page): (Page, nat) {
    if locked && pg.refreshPromise.Some? then (pg, pg.refreshPromise.value)
    else
      var p := |pg.posts|;
      (pg.(posts := pg.posts + [Sent(pg.cookie)], refreshPromise := Some(p)), p)
  }

  /** The promise resolves and the `finally` block clears the lock. */
  function Settle(pg: Page, p: nat, ok: bool, gen: nat): Page
    requires p < |pg.posts|
  {
    pg.(posts := pg.posts[p := Settled(ok, gen, pg.clears)], refreshPromise := None)
  }

  function SignOut(pg: Page): Page {
    pg.(accessToken := None, clears := pg.clears + 1)
  }

  function SetRequest(pg: Page, i: nat, r: Request): Page
    requires i < |pg.requests|
  {
    pg.(requests := pg.requests[i := r])
  }

  function SetDirect(pg: Page, d: nat, x: Direct): Page
    requires d < |pg.directs|
  {
    pg.(directs := pg.directs[d := x])
  }

  function OnSend(pg: Page, i: nat): Page
    requires i < |pg.requests|
  {
    SetRequest(pg, i, Request(First, pg.requests[i].fetches + 1, pg.requests[i].waits))
  }

  function OnFirstResponse(locked: bool, pg: Page, i: nat, unauthorized: bool): Page
    requires i < |pg.requests|
  {
    var r := pg.requests[i];
    if unauthorized then
      var (pg', p) := TryRefresh(locked, pg);
      SetRequest(pg', i, Request(Waiting(p), r.fetches, r.waits + 1))
    else
      SetRequest(pg, i, r.(phase := Done(Finished, None)))
  }

  /** The browser applies the cookie of an answer before any code sees it. */
  function ApplyCookie(pg: Page, answer: Post): Page {
    match answer
    case Accepted(gen) => pg.(cookie := Some(gen))
    case Refused(_, wiping) => if wiping then pg.(cookie := None) else pg
    case _ => pg
  }

  predicate IsAnswer(post: Post) {
    post.Accepted? || post.Refused?
  }

  function OnRefreshHeaders(pg: Page, p: nat): Page
    requires p < |pg.posts| && IsAnswer(pg.posts[p])
  {
    var pg1 := ApplyCookie(pg, pg.posts[p]);
    match pg.posts[p]
    case Accepted(gen) => SetPost(pg1, Locked(p), Parsing(gen))
    case Refused(_, _) => Settle(pg1, p, false, 0)
  }

  function OnRefreshBody(pg: Page, p: nat): Page
    requires p < |pg.posts| && pg.posts[p].Parsing?
  {
    var gen := pg.posts[p].gen;
    Settle(pg.(accessToken := Some(gen)), p, true, gen)
  }

  /** A waiter may continue: the promise it waits for has settled. */
  predicate IsSettled(pg: Page, p: nat) {
    p < |pg.posts| && pg.posts[p].Settled?
  }

  /** A waiter continues: log out when the refresh failed, otherwise fetch again with the stored token. */
  function OnResume(pg: Page, i: nat): Page
    requires i < |pg.requests| && pg.requests[i].phase.Waiting? && IsSettled(pg, pg.requests[i].phase.post)
  {
    var r := pg.requests[i];
    var p := r.phase.post;
    if pg.posts[p].ok then
      SetRequest(pg, i, Request(Retry(p, pg.accessToken), r.fetches + 1, r.waits))
    else
      SetRequest(SignOut(pg), i, r.(phase := Done(Expired, Some(p))))
  }

  function OnRetryResponse(pg: Page, i: nat): Page
    requires i < |pg.requests| && pg.requests[i].phase.Retry?
  {
    SetRequest(pg, i, pg.requests[i].(phase := Done(Finished, Some(pg.requests[i].phase.post))))
  }

  function OnDirectSend(pg: Page): Page {
    pg.(directs := pg.directs + [Posting(Sent(pg.cookie), false)])
  }

  /** The first 401 sends the call into `tryRefresh`; any other refusal, and a second 401, is an error of the call. */
  function OnDirectHeaders(locked: bool, pg: Page, d: nat): Page
    requires HasPost(pg, Around(d)) && IsAnswer(pg.directs[d].post)
  {
    var post, retried := pg.directs[d].post, pg.directs[d].retried;
    var pg1 := ApplyCookie(pg, post);
    match post
    case Accepted(gen) => SetDirect(pg1, d, Posting(Parsing(gen), retried))
    case Refused(unauthorized, _) =>
      if unauthorized && !retried then
        var (pg2, p) := TryRefresh(locked, pg1);
        SetDirect(pg2, d, Joined(p))
      else SetDirect(pg1, d, Posting(Settled(false, 0, pg.clears), retried))
  }

  function OnDirectBody(pg: Page, d: nat): Page
    requires HasPost(pg, Around(d)) && pg.directs[d].post.Parsing?
  {
    var gen := pg.directs[d].post.gen;
    SetPost(pg.(accessToken := Some(gen)), Around(d), Settled(true, gen, pg.clears))
  }

  function OnDirectResume(pg: Page, d: nat): Page
    requires d < |pg.directs| && pg.directs[d].Joined? && IsSettled(pg, pg.directs[d].lock)
  {
    var p := pg.directs[d].lock;
    if pg.posts[p].ok then SetDirect(pg, d, Posting(Sent(pg.cookie), true))
    else SetDirect(SignOut(pg), d, LoggedOut(p))
  }

  function OnLogoutSend(pg: Page): Page {
    pg.(logouts := pg.logouts + [LogoutSent(pg.cookie)])
  }

  /** The answer takes the cookie away, whether or not its token was valid; a failed POST does not. Both sign out. */
  function OnLogoutEnd(pg: Page, l: nat, answered: bool): Page
    requires l < |pg.logouts|
  {
    SignOut(pg.(logouts := pg.logouts[l := LogoutOver], cookie := if answered then None else pg.cookie))
  }

  /** The fetch or `res.json()` rejects. */
  function OnBroken(pg: Page, r: Ref): Page
    requires HasPost(pg, r)
  {
    match r
    case Locked(p) => Settle(pg, p, false, 0)
    case Around(_) => SetPost(pg, r, Settled(false, 0, pg.clears))
  }

  // ----- The server -----

  /**
   Single use: the token is accepted while it is the valid one, and replaced by doing so; any other is refused
   and removed from the browser.
  */
  function Serve(s: Server, cookie: Option<nat>): (Server, Post) {
    if cookie.None? then (s, Refused(true, false))
    else if !s.alive then (s, Refused(true, true))
    else if cookie.value == s.valid then (s.(valid := s.valid + 1), Accepted(s.valid + 1))
    else (s.(consumed := s.consumed + 1), Refused(true, true))
  }

  /** `POST /auth/logout` revokes the token it is given, if that is still valid. */
  function ServeRevocation(s: Server, cookie: Option<nat>): Server {
    if cookie == Some(s.valid) then s.(alive := false) else s
  }

  // ----- Steps -----

  datatype Event =
    // the protocol
    | Send(i: nat)
    | FirstResponse(i: nat, unauthorized: bool)
    | ServePost(r: Ref)
    | RefreshHeaders(p: nat)
    | RefreshBody(p: nat)
    | Resume(i: nat)
    | RetryResponse(i: nat)
    | DirectHeaders(d: nat)
    | DirectBody(d: nat)
    | DirectResume(d: nat)
    // faults
    // not rotated: by the rate limit, or by an error or ban in the handler, which removes the cookie
    | TurnAway(r: Ref, wipes: bool)
    | BreakPost(r: Ref)           // the fetch rejects; the server may or may not have acted
    | BreakBody(r: Ref)           // `res.json()` rejects
    // environment
    | ClearAuth                   // clearAuth() or logout() called elsewhere
    | RevokeSession
    | DirectSend                  // POST /auth/refresh sent around the lock
    | LogoutSend                  // POST /auth/logout, by one of the buttons
    | ServeLogout(l: nat)
    | LogoutEnd(l: nat, answered: bool)

  predicate Enabled(w: World, e: Event) {
    var pg := w.page;
    match e
    case Send(i) => i < |pg.requests| && pg.requests[i].phase.Idle?
    case FirstResponse(i, _) => i < |pg.requests| && pg.requests[i].phase.First?
    case ServePost(r) => HasPost(pg, r) && PostAt(pg, r).Sent?
    case RefreshHeaders(p) => p < |pg.posts| && IsAnswer(pg.posts[p])
    case RefreshBody(p) => p < |pg.posts| && pg.posts[p].Parsing?
    case Resume(i) => i < |pg.requests| && pg.requests[i].phase.Waiting? && IsSettled(pg, pg.requests[i].phase.post)
    case RetryResponse(i) => i < |pg.requests| && pg.requests[i].phase.Retry?
    case DirectHeaders(d) => HasPost(pg, Around(d)) && IsAnswer(pg.directs[d].post)
    case DirectBody(d) => HasPost(pg, Around(d)) && pg.directs[d].post.Parsing?
    case DirectResume(d) => d < |pg.directs| && pg.directs[d].Joined? && IsSettled(pg, pg.directs[d].lock)
    case TurnAway(r, _) => HasPost(pg, r) && PostAt(pg, r).Sent?
    case BreakPost(r) => HasPost(pg, r) && InFlight(PostAt(pg, r))
    case BreakBody(r) => HasPost(pg, r) && PostAt(pg, r).Parsing?
    case ClearAuth => true
    case RevokeSession => true
    case DirectSend => true
    case LogoutSend => true
    case ServeLogout(l) => l < |pg.logouts| && pg.logouts[l].LogoutSent?
    case LogoutEnd(l, answered) =>
      l < |pg.logouts| && (pg.logouts[l].LogoutServed? || (!answered && pg.logouts[l].LogoutSent?))
  }

  predicate InFlight(post: Post) {
    post.Sent? || post.Accepted? || post.Refused?
  }

  function Step(locked: bool, w: World, e: Event): World
    requires Enabled(w, e)
  {
    var pg := w.page;
    match e
    case Send(i) => w.(page := OnSend(pg, i))
    case FirstResponse(i, unauthorized) => w.(page := OnFirstResponse(locked, pg, i, unauthorized))
    case ServePost(r) =>
      var (server, answer) := Serve(w.server, PostAt(pg, r).cookie);
      World(SetPost(pg, r, answer), server)
    case RefreshHeaders(p) => w.(page := OnRefreshHeaders(pg, p))
    case RefreshBody(p) => w.(page := OnRefreshBody(pg, p))
    case Resume(i) => w.(page := OnResume(pg, i))
    case RetryResponse(i) => w.(page := OnRetryResponse(pg, i))
    case DirectHeaders(d) => w.(page := OnDirectHeaders(locked, pg, d))
    case DirectBody(d) => w.(page := OnDirectBody(pg, d))
    case DirectResume(d) => w.(page := OnDirectResume(pg, d))
    case TurnAway(r, wipes) => w.(page := SetPost(pg, r, Refused(false, wipes)))
    case BreakPost(r) => w.(page := OnBroken(pg, r))
    case BreakBody(r) => w.(page := OnBroken(pg, r))
    case ClearAuth => w.(page := SignOut(pg))
    case RevokeSession => w.(server := w.server.(alive := false))
    case DirectSend => w.(page := OnDirectSend(pg))
    case LogoutSend => w.(page := OnLogoutSend(pg))
    case ServeLogout(l) =>
      World(pg.(logouts := pg.logouts[l := LogoutServed]), ServeRevocation(w.server, pg.logouts[l].cookie))
    case LogoutEnd(l, answered) => w.(page := OnLogoutEnd(pg, l, answered))
  }

  function Init(n: nat): World {
    World(
      Page(Some(0), 0, None, Some(0), [], seq(n, _ => Request(Idle, 0, 0)), [], []),
      Server(true, 0, 0))
  }

  predicate IsEnvironment(e: Event) {
    e.ClearAuth? || e.RevokeSession? || e.DirectSend? || IsLogout(e)
  }

  predicate IsLogout(e: Event) {
    e.LogoutSend? || e.ServeLogout? || e.LogoutEnd?
  }

  predicate IsFault(e: Event) {
    e.TurnAway? || e.BreakPost? || e.BreakBody?
  }

  /** Steps the page and the server take by themselves. */
  predicate IsProtocol(e: Event) {
    !IsEnvironment(e) && !IsFault(e)
  }

  /** The step of the page as it is, with the lock. */
  function LockedStep(w: World, e: Event): World
    requires Enabled(w, e)
  {
    Step(true, w, e)
  }

  ghost predicate IsReachable(w: World) {
    exists n: nat :: Reachable(LockedStep, Init(n), w)
  }

  lemma NextIsReachable(w: World, e: Event)
    requires IsReachable(w) && Enabled(w, e)
    ensures IsReachable(Step(true, w, e))
  {
    var n: nat :| Reachable(LockedStep, Init(n), w);
    ReachableStep(LockedStep, Init(n), w, e);
  }

  // ----- What single steps come to -----

  /** A call whose refresh has failed signs out as it continues: the token is gone, and the sign-out is counted. */
  lemma {:induction false} FailedRefreshSignsOut(w: World, e: Event)
    requires Enabled(w, e) && (e.Resume? || e.DirectResume?)
    requires var p := if e.Resume? then w.page.requests[e.i].phase.post else w.page.directs[e.d].lock;
      !w.page.posts[p].ok
    ensures var pg, pg' := w.page, Step(true, w, e).page;
      && pg'.accessToken == None && pg'.clears == pg.clears + 1
      && pg'.posts == pg.posts && pg'.cookie == pg.cookie && pg'.refreshPromise == pg.refreshPromise
      && (e.Resume? ==> pg'.requests[e.i].phase == Done(Expired, Some(pg.requests[e.i].phase.post)))
      && (e.DirectResume? ==> pg'.directs[e.d] == LoggedOut(pg.directs[e.d].lock))
  {
  }

  /** One whose refresh has succeeded goes on with the token in the store, or with the cookie in the jar. */
  lemma {:induction false} SuccessfulRefreshRetries(w: World, e: Event)
    requires Enabled(w, e) && (e.Resume? || e.DirectResume?)
    requires var p := if e.Resume? then w.page.requests[e.i].phase.post else w.page.directs[e.d].lock;
      w.page.posts[p].ok
    ensures var pg, pg' := w.page, Step(true, w, e).page;
      && pg'.accessToken == pg.accessToken && pg'.clears == pg.clears
      && pg'.posts == pg.posts && pg'.cookie == pg.cookie && pg'.refreshPromise == pg.refreshPromise
      && (e.Resume? ==> pg'.requests[e.i].phase == Retry(pg.requests[e.i].phase.post, pg.accessToken))
      && (e.DirectResume? ==> pg'.directs[e.d] == Posting(Sent(pg.cookie), true))
  {
  }

  /**
   What the server makes of a refresh: without a cookie a 401 that leaves the jar alone, with the valid token of
   a live session a new pair, and otherwise a 401 that empties the jar.
  */
  lemma {:induction false} AnswersExactly(w: World, r: Ref)
    requires Enabled(w, ServePost(r))
    ensures var s, w', cookie := w.server, Step(true, w, ServePost(r)), PostAt(w.page, r).cookie;
      && HasPost(w'.page, r) && w'.page.cookie == w.page.cookie && w'.page.accessToken == w.page.accessToken
      && (cookie == None ==> PostAt(w'.page, r) == Refused(true, false) && w'.server == s)
      && (cookie == Some(s.valid) && s.alive ==>
           PostAt(w'.page, r) == Accepted(s.valid + 1) && w'.server == Server(true, s.valid + 1, s.consumed))
      && (cookie.Some? && !s.alive ==> PostAt(w'.page, r) == Refused(true, true) && w'.server == s)
      && (cookie.Some? && cookie != Some(s.valid) && s.alive ==>
           PostAt(w'.page, r) == Refused(true, true) && w'.server == Server(true, s.valid, s.consumed + 1))
  {
  }

  /** Logging out ends with the token gone in any case; the cookie goes with it only if the POST was answered. */
  lemma {:induction false} LogoutEmptiesTheJar(w: World, l: nat, answered: bool)
    requires Enabled(w, LogoutEnd(l, answered))
    ensures var pg, pg' := w.page, Step(true, w, LogoutEnd(l, answered)).page;
      && pg'.accessToken == None && pg'.clears == pg.clears + 1 && pg'.cookie == (if answered then None else pg.cookie)
      && pg'.posts == pg.posts && pg'.requests == pg.requests && pg'.directs == pg.directs
  {
  }

  /** The store changes with the bodies of answers, sign-outs and failed refreshes, and with nothing else. */
  lemma {:induction false} StoreChangesExactly(w: World, e: Event)
    requires Enabled(w, e)
    ensures var pg, pg' := w.page, Step(true, w, e).page;
      && pg'.accessToken == (
           match e
           case RefreshBody(p) => Some(pg.posts[p].gen)
           case DirectBody(d) => Some(pg.directs[d].post.gen)
           case Resume(i) => if pg.posts[pg.requests[i].phase.post].ok then pg.accessToken else None
           case DirectResume(d) => if pg.posts[pg.directs[d].lock].ok then pg.accessToken else None
           case ClearAuth => None
           case LogoutEnd(_, _) => None
           case _ => pg.accessToken)
      && (pg'.accessToken == None && pg.accessToken.Some? ==> pg'.clears == pg.clears + 1)
  {
  }

  /**
   The cookie jar changes with the headers of answers to refreshes and with answered logouts, and with nothing
   else.
  */
  lemma {:induction false} JarChangesExactly(w: World, e: Event)
    requires Enabled(w, e)
    ensures var pg := w.page;
      Step(true, w, e).page.cookie ==
        match e
        case RefreshHeaders(p) => JarAfter(pg.cookie, pg.posts[p])
        case DirectHeaders(d) => JarAfter(pg.cookie, pg.directs[d].post)
        case LogoutEnd(_, answered) => if answered then None else pg.cookie
        case _ => pg.cookie
  {
  }

  /**
   The server changes with refreshes it is sent, with revocations, and with nothing else; a revoked session is
   dead.
  */
  lemma {:induction false} ServerChangesExactly(w: World, e: Event)
    requires Enabled(w, e)
    ensures var s, s' := w.server, Step(true, w, e).server;
      match e
      case ServePost(r) => s'.alive == s.alive
      case RevokeSession => s' == Server(false, s.valid, s.consumed)
      case ServeLogout(l) => s' == Server(s.alive && w.page.logouts[l].cookie != Some(s.valid), s.valid, s.consumed)
      case _ => s' == s
  {
  }

  /** A POST turned away is refused, but not with a 401, and without using its token. */
  lemma {:induction false} TurnedAwayIsNoUnauthorized(w: World, r: Ref, wipes: bool)
    requires Enabled(w, TurnAway(r, wipes))
    ensures var w' := Step(true, w, TurnAway(r, wipes));
      HasPost(w'.page, r) && PostAt(w'.page, r) == Refused(false, wipes) && w'.server == w.server
  {
  }

  function JarAfter(cookie: Option<nat>, answer: Post): Option<nat> {
    match answer
    case Accepted(gen) => Some(gen)
    case Refused(_, wiping) => if wiping then None else cookie
    case _ => cookie
  }

  /**
   A first answer that is no 401 ends the request; a 401 makes it join the running refresh, or start one with the
   cookie in the jar.
  */
  lemma {:induction false} FirstAnswerExactly(w: World, i: nat, unauthorized: bool)
    requires Enabled(w, FirstResponse(i, unauthorized))
    ensures var pg, pg' := w.page, Step(true, w, FirstResponse(i, unauthorized)).page;
      && (!unauthorized ==>
           && pg'.requests[i].phase == Done(Finished, None)
           && pg'.posts == pg.posts && pg'.refreshPromise == pg.refreshPromise)
      && (unauthorized && pg.refreshPromise.Some? ==>
           && pg'.requests[i].phase == Waiting(pg.refreshPromise.value)
           && pg'.posts == pg.posts && pg'.refreshPromise == pg.refreshPromise)
      && (unauthorized && pg.refreshPromise.None? ==>
           && pg'.requests[i].phase == Waiting(|pg.posts|)
           && pg'.posts == pg.posts + [Sent(pg.cookie)] && pg'.refreshPromise == Some(|pg.posts|))
  {
  }

  // ----- The invariant of every run: lock and requests -----

  /** The promise is set exactly while one POST of the lock, the last one, is unsettled. */
  ghost predicate LockInv(pg: Page) {
    && (pg.refreshPromise.Some? ==> pg.refreshPromise.value + 1 == |pg.posts|)
    && forall p :: 0 <= p < |pg.posts| ==> (pg.posts[p].Settled? <==> pg.refreshPromise != Some(p))
  }

  predicate Resolved(pg: Page, p: nat, ok: bool) {
    p < |pg.posts| && pg.posts[p].Settled? && pg.posts[p].ok == ok
  }

  predicate RequestInv(pg: Page, r: Request) {
    match r.phase
    case Idle => r.fetches == 0 && r.waits == 0
    case First => r.fetches == 1 && r.waits == 0
    case Waiting(p) => r.fetches == 1 && r.waits == 1 && p < |pg.posts|
    case Retry(p, _) => r.fetches == 2 && r.waits == 1 && Resolved(pg, p, true)
    case Done(Finished, None) => r.fetches == 1 && r.waits == 0
    case Done(Finished, Some(p)) => r.fetches == 2 && r.waits == 1 && Resolved(pg, p, true)
    case Done(Expired, None) => false
    case Done(Expired, Some(p)) => r.fetches == 1 && r.waits == 1 && Resolved(pg, p, false)
  }

  predicate DirectInv(pg: Page, x: Direct) {
    match x
    case Posting(_, _) => true
    case Joined(p) => p < |pg.posts|
    case LoggedOut(p) => Resolved(pg, p, false)
  }

  function Waits(r: Request): nat {
    r.waits
  }

  function DirectWaits(x: Direct): nat {
    if x.Posting? && !x.retried then 0 else 1
  }

  ghost predicate PageInv(pg: Page) {
    && LockInv(pg)
    && (forall i :: 0 <= i < |pg.requests| ==> RequestInv(pg, pg.requests[i]))
    && (forall d :: 0 <= d < |pg.directs| ==> DirectInv(pg, pg.directs[d]))
    && |pg.posts| <= Sum(Waits, pg.requests) + Sum(DirectWaits, pg.directs)
  }

  /** What requests and direct calls rely on: settled posts stay as they are. */
  ghost predicate Extends(pg: Page, pg': Page) {
    && |pg.posts| <= |pg'.posts|
    && forall p :: 0 <= p < |pg.posts| && pg.posts[p].Settled? ==> pg'.posts[p] == pg.posts[p]
  }

  lemma CallsKeepInv(pg: Page, pg': Page)
    requires Extends(pg, pg')
    ensures forall r :: RequestInv(pg, r) ==> RequestInv(pg', r)
    ensures forall x :: DirectInv(pg, x) ==> DirectInv(pg', x)
  {
  }

  /** Steps that change one request, and neither posts nor direct calls. */
  lemma RequestKeepsPage(pg: Page, pg': Page, i: nat)
    requires PageInv(pg) && i < |pg.requests| && |pg'.requests| == |pg.requests|
    requires pg'.requests == pg.requests[i := pg'.requests[i]]
    requires pg'.posts == pg.posts && pg'.refreshPromise == pg.refreshPromise && pg'.directs == pg.directs
    requires RequestInv(pg, pg'.requests[i]) && pg.requests[i].waits <= pg'.requests[i].waits
    ensures PageInv(pg')
  {
    hide Sum;
    CallsKeepInv(pg, pg');
    SumUpdate(Waits, pg.requests, i, pg'.requests[i]);
  }

  /** Steps that change one direct call, and neither posts nor requests. */
  lemma DirectKeepsPage(pg: Page, pg': Page, d: nat)
    requires PageInv(pg) && d < |pg.directs| && |pg'.directs| == |pg.directs|
    requires pg'.directs == pg.directs[d := pg'.directs[d]]
    requires pg'.posts == pg.posts && pg'.refreshPromise == pg.refreshPromise && pg'.requests == pg.requests
    requires DirectInv(pg, pg'.directs[d]) && DirectWaits(pg.directs[d]) <= DirectWaits(pg'.directs[d])
    ensures PageInv(pg')
  {
    hide Sum;
    CallsKeepInv(pg, pg');
    SumUpdate(DirectWaits, pg.directs, d, pg'.directs[d]);
  }

  /** Steps that move one unsettled post of the lock on, and change no call. */
  lemma PostKeepsPage(pg: Page, pg': Page, p: nat)
    requires PageInv(pg) && p < |pg.posts| && !pg.posts[p].Settled? && |pg'.posts| == |pg.posts|
    requires pg'.posts == pg.posts[p := pg'.posts[p]]
    requires pg'.requests == pg.requests && pg'.directs == pg.directs
    requires pg'.refreshPromise == if pg'.posts[p].Settled? then None else pg.refreshPromise
    ensures PageInv(pg')
  {
    CallsKeepInv(pg, pg');
  }

  /** A call that has not waited before joins the running refresh, or starts one. */
  lemma JoinKeepsPage(pg: Page, pg': Page)
    requires PageInv(pg) && (pg', TryRefresh(true, pg).1) == TryRefresh(true, pg)
    ensures LockInv(pg') && Extends(pg, pg') && TryRefresh(true, pg).1 < |pg'.posts|
    ensures |pg'.posts| <= Sum(Waits, pg.requests) + Sum(DirectWaits, pg.directs) + 1
  {
  }

  lemma UnauthorizedKeepsPage(w: World, i: nat)
    requires PageInv(w.page) && Enabled(w, FirstResponse(i, true))
    ensures PageInv(OnFirstResponse(true, w.page, i, true))
  {
    hide Sum, LockInv, TryRefresh;
    var pg := w.page;
    var (pg1, p) := TryRefresh(true, pg);
    JoinKeepsPage(pg, pg1);
    TryRefreshFrame(true, pg);
    var pg' := OnFirstResponse(true, pg, i, true);
    CallsKeepInv(pg, pg');
    SumUpdate(Waits, pg.requests, i, pg'.requests[i]);
    SameLock(pg1, pg');
  }

  lemma TryRefreshFrame(locked: bool, pg: Page)
    ensures var pg' := TryRefresh(locked, pg).0;
      pg'.requests == pg.requests && pg'.directs == pg.directs && pg'.cookie == pg.cookie
      && pg'.accessToken == pg.accessToken && pg'.clears == pg.clears
  {
  }

  lemma SameLock(pg: Page, pg': Page)
    requires LockInv(pg) && pg'.posts == pg.posts && pg'.refreshPromise == pg.refreshPromise
    ensures LockInv(pg')
  {
  }

  lemma DirectUnauthorizedKeepsPage(w: World, d: nat)
    requires PageInv(w.page) && Enabled(w, DirectHeaders(d))
    requires w.page.directs[d].post.Refused? && w.page.directs[d].post.unauthorized && !w.page.directs[d].retried
    ensures PageInv(OnDirectHeaders(true, w.page, d))
  {
    hide Sum, LockInv, TryRefresh;
    var pg := ApplyCookie(w.page, w.page.directs[d].post);
    SameLock(w.page, pg);
    CallsKeepInv(w.page, pg);
    var (pg1, p) := TryRefresh(true, pg);
    JoinKeepsPage(pg, pg1);
    TryRefreshFrame(true, pg);
    var pg' := OnDirectHeaders(true, w.page, d);
    CallsKeepInv(pg, pg');
    SumUpdate(DirectWaits, pg.directs, d, pg'.directs[d]);
    SameLock(pg1, pg');
  }

  lemma DirectSendKeepsPage(pg: Page)
    requires PageInv(pg)
    ensures PageInv(OnDirectSend(pg))
  {
    hide Sum;
    CallsKeepInv(pg, OnDirectSend(pg));
    SumAppend(DirectWaits, pg.directs, [Posting(Sent(pg.cookie), false)]);
  }

  lemma PostEventKeepsPage(w: World, e: Event)
    requires PageInv(w.page) && Enabled(w, e)
    requires e.ServePost? || IsFault(e)
    ensures PageInv(Step(true, w, e).page)
  {
    hide PageInv;
    match e.r
    case Locked(p) =>
      UnsettledPost(w.page, p);
      PostKeepsPage(w.page, Step(true, w, e).page, p);
    case Around(d) =>
      DirectKeepsPage(w.page, Step(true, w, e).page, d);
  }

  lemma UnsettledPost(pg: Page, p: nat)
    requires PageInv(pg) && p < |pg.posts|
    ensures !pg.posts[p].Settled? ==> pg.refreshPromise == Some(p)
  {
  }

  lemma DirectHeadersKeepsPage(w: World, d: nat)
    requires PageInv(w.page) && Enabled(w, DirectHeaders(d))
    ensures PageInv(Step(true, w, DirectHeaders(d)).page)
  {
    var x := w.page.directs[d];
    if x.post.Refused? && x.post.unauthorized && !x.retried {
      DirectUnauthorizedKeepsPage(w, d);
    } else {
      hide PageInv;
      DirectKeepsPage(w.page, Step(true, w, DirectHeaders(d)).page, d);
    }
  }

  lemma ResumeKeepsPage(w: World, e: Event)
    requires PageInv(w.page) && Enabled(w, e) && (e.Resume? || e.DirectResume?)
    ensures PageInv(Step(true, w, e).page)
  {
    var pg' := Step(true, w, e).page;
    if e.Resume? {
      assert RequestInv(w.page, w.page.requests[e.i]);
      RequestKeepsPage(w.page, pg', e.i);
    } else {
      DirectKeepsPage(w.page, pg', e.d);
    }
  }

  lemma StepKeepsPage(w: World, e: Event)
    requires PageInv(w.page) && Enabled(w, e)
    ensures PageInv(Step(true, w, e).page)
  {
    hide LockInv, Sum;
    var pg, pg' := w.page, Step(true, w, e).page;
    match e
    case Send(i) => assert RequestInv(pg, pg.requests[i]); RequestKeepsPage(pg, pg', i);
    case FirstResponse(i, unauthorized) =>
      if unauthorized { UnauthorizedKeepsPage(w, i); }
      else { assert RequestInv(pg, pg.requests[i]); RequestKeepsPage(pg, pg', i); }
    case ServePost(r) => PostEventKeepsPage(w, e);
    case RefreshHeaders(p) => UnsettledPost(pg, p); PostKeepsPage(pg, pg', p);
    case RefreshBody(p) => UnsettledPost(pg, p); PostKeepsPage(pg, pg', p);
    case Resume(i) => ResumeKeepsPage(w, e);
    case RetryResponse(i) => assert RequestInv(pg, pg.requests[i]); RequestKeepsPage(pg, pg', i);
    case DirectHeaders(d) => DirectHeadersKeepsPage(w, d);
    case DirectBody(d) => DirectKeepsPage(pg, pg', d);
    case DirectResume(d) => ResumeKeepsPage(w, e);
    case TurnAway(r, _) => PostEventKeepsPage(w, e);
    case BreakPost(r) => PostEventKeepsPage(w, e);
    case BreakBody(r) => PostEventKeepsPage(w, e);
    case ClearAuth => SamePage(pg, pg');
    case RevokeSession =>
    case DirectSend => DirectSendKeepsPage(pg);
    case LogoutSend => SamePage(pg, pg');
    case ServeLogout(l) => SamePage(pg, pg');
    case LogoutEnd(l, _) => SamePage(pg, pg');
  }

  /** Steps that leave posts and calls alone. */
  lemma SamePage(pg: Page, pg': Page)
    requires PageInv(pg) && pg'.posts == pg.posts && pg'.refreshPromise == pg.refreshPromise
    requires pg'.requests == pg.requests && pg'.directs == pg.directs
    ensures PageInv(pg')
  {
    CallsKeepInv(pg, pg');
  }

  // ----- The invariant of every run: tokens -----

  predicate UpTo(cookie: Option<nat>, valid: nat) {
    cookie.Some? ==> cookie.value <= valid
  }

  /** The POST presents the valid token or brings it back. */
  predicate Carries(post: Post, valid: nat) {
    post.Accepted? || post == Sent(Some(valid))
  }

  predicate PostInv(pg: Page, valid: nat, post: Post) {
    match post
    case Sent(cookie) => UpTo(cookie, valid)
    case Accepted(gen) => gen == valid && UpTo(pg.cookie, valid) && pg.cookie != Some(valid)
    case Refused(_, _) => true
    case Parsing(gen) => gen <= valid
    case Settled(ok, gen, clears) => clears <= pg.clears && (ok ==> gen <= valid)
  }

  /** While an accepted answer is on its way, no other POST can be accepted. */
  ghost predicate OneAnswer(pg: Page, valid: nat) {
    forall r, s :: HasPost(pg, r) && HasPost(pg, s) && r != s && PostAt(pg, r).Accepted?
      ==> !Carries(PostAt(pg, s), valid)
  }

  ghost predicate CookieInv(w: World) {
    && UpTo(w.page.cookie, w.server.valid)
    && (forall r :: HasPost(w.page, r) ==> PostInv(w.page, w.server.valid, PostAt(w.page, r)))
    && OneAnswer(w.page, w.server.valid)
  }

  /** An answer of the lock under way is newer than everything the lock has settled. */
  ghost predicate OrderInv(pg: Page) {
    forall p, q :: 0 <= p < |pg.posts| && 0 <= q < |pg.posts|
      && (pg.posts[p].Accepted? || pg.posts[p].Parsing?) && pg.posts[q].Settled? && pg.posts[q].ok
      ==> pg.posts[q].gen <= pg.posts[p].gen
  }

  ghost predicate Inv(w: World) {
    PageInv(w.page) && CookieInv(w) && OrderInv(w.page)
  }

  lemma {:induction false} InitInv(n: nat)
    ensures Inv(Init(n))
  {
  }

  /** Steps that leave the cookie, the server and every POST alone. */
  lemma SamePosts(w: World, w': World)
    requires CookieInv(w) && w'.server.valid == w.server.valid && w'.page.cookie == w.page.cookie
    requires w'.page.posts == w.page.posts && w'.page.directs == w.page.directs && w.page.clears <= w'.page.clears
    ensures CookieInv(w')
  {
    assert forall r :: HasPost(w'.page, r) ==> HasPost(w.page, r) && PostAt(w'.page, r) == PostAt(w.page, r);
  }

  /** The cookie is taken out of the jar. */
  lemma WipedKeepsCookies(w: World, w': World)
    requires CookieInv(w) && w'.server.valid == w.server.valid && w'.page.cookie == None
    requires w'.page.posts == w.page.posts && w'.page.directs == w.page.directs && w.page.clears <= w'.page.clears
    ensures CookieInv(w')
  {
    assert forall r :: HasPost(w'.page, r) ==> HasPost(w.page, r) && PostAt(w'.page, r) == PostAt(w.page, r);
  }

  /** All POSTs but `r` are as before, and `r` is in order. */
  ghost predicate ChangesOnly(pg: Page, pg': Page, r: Ref) {
    forall s :: HasPost(pg', s) && s != r ==> HasPost(pg, s) && PostAt(pg', s) == PostAt(pg, s)
  }

  /** A POST is started or moves on without touching the cookie jar and the server. */
  lemma OnePostMoves(w: World, w': World, r: Ref)
    requires CookieInv(w) && w'.server.valid == w.server.valid && w'.page.cookie == w.page.cookie
    requires w.page.clears <= w'.page.clears && ChangesOnly(w.page, w'.page, r)
    requires HasPost(w'.page, r) ==>
      PostInv(w'.page, w'.server.valid, PostAt(w'.page, r)) && !PostAt(w'.page, r).Accepted?
    requires HasPost(w'.page, r) && Carries(PostAt(w'.page, r), w.server.valid)
      ==> PostAt(w'.page, r) == Sent(w.page.cookie)
    ensures CookieInv(w')
  {
    forall s, t | HasPost(w'.page, s) && HasPost(w'.page, t) && s != t && PostAt(w'.page, s).Accepted?
      ensures !Carries(PostAt(w'.page, t), w'.server.valid)
    {
      assert PostInv(w.page, w.server.valid, PostAt(w.page, s));
    }
  }

  /** The server rotates: everything presented so far is used up. */
  lemma RotationKeepsCookies(w: World, w': World, r: Ref)
    requires CookieInv(w) && HasPost(w.page, r) && PostAt(w.page, r) == Sent(Some(w.server.valid))
    requires w'.server.valid == w.server.valid + 1 && w'.page.cookie == w.page.cookie && w'.page.clears == w.page.clears
    requires HasPost(w'.page, r) && PostAt(w'.page, r) == Accepted(w'.server.valid) && ChangesOnly(w.page, w'.page, r)
    ensures CookieInv(w')
  {
    forall s | HasPost(w'.page, s) && s != r
      ensures !Carries(PostAt(w'.page, s), w'.server.valid) && PostInv(w'.page, w'.server.valid, PostAt(w'.page, s))
    {
      assert PostInv(w.page, w.server.valid, PostAt(w.page, s));
      if PostAt(w.page, s).Accepted? {
        assert Carries(PostAt(w.page, r), w.server.valid);
      }
    }
  }

  /** The headers of an accepted answer put the valid token into the jar; those of a refusal may take one out. */
  lemma AnswerKeepsCookies(w: World, w': World, r: Ref, answer: Post)
    requires CookieInv(w) && HasPost(w.page, r) && PostAt(w.page, r) == answer && IsAnswer(answer)
    requires w'.server.valid == w.server.valid && w'.page.cookie == ApplyCookie(w.page, answer).cookie
    requires w.page.clears <= w'.page.clears && ChangesOnly(w.page, w'.page, r)
    requires HasPost(w'.page, r) ==>
      (PostAt(w'.page, r).Parsing? && answer == Accepted(PostAt(w'.page, r).gen))
      || (PostAt(w'.page, r).Settled? && !PostAt(w'.page, r).ok && PostAt(w'.page, r).clears <= w'.page.clears)
    ensures CookieInv(w')
  {
    forall s | HasPost(w'.page, s) ensures PostInv(w'.page, w'.server.valid, PostAt(w'.page, s)) {
      if s != r {
        assert PostInv(w.page, w.server.valid, PostAt(w.page, s));
        if answer.Accepted? {
          assert !Carries(PostAt(w.page, s), w.server.valid);
        }
      }
    }
  }

  /** A call joins or starts a refresh after the jar has changed. */
  lemma JoinKeepsCookies(w: World, w': World)
    requires CookieInv(w) && w'.server.valid == w.server.valid && w'.page.cookie == w.page.cookie
    requires w'.page.clears == w.page.clears && w'.page.directs == w.page.directs
    requires w'.page.posts == TryRefresh(true, w.page).0.posts
    ensures CookieInv(w')
  {
    if w.page.refreshPromise.Some? {
      SamePosts(w, w');
    } else {
      OnePostMoves(w, w', Locked(|w.page.posts|));
    }
  }

  lemma DirectHeadersKeepsCookies(w: World, d: nat)
    requires CookieInv(w) && Enabled(w, DirectHeaders(d))
    ensures CookieInv(Step(true, w, DirectHeaders(d)))
  {
    var pg, x := w.page, w.page.directs[d];
    if x.post.Refused? && x.post.unauthorized && !x.retried {
      var pg1 := SetDirect(ApplyCookie(pg, x.post), d, Joined(TryRefresh(true, pg).1));
      hide CookieInv;
      AnswerKeepsCookies(w, w.(page := pg1), Around(d), x.post);
      JoinKeepsCookies(w.(page := pg1), Step(true, w, DirectHeaders(d)));
    } else {
      hide CookieInv;
      AnswerKeepsCookies(w, Step(true, w, DirectHeaders(d)), Around(d), x.post);
    }
  }

  lemma ServeKeepsCookies(w: World, r: Ref)
    requires CookieInv(w) && Enabled(w, ServePost(r))
    ensures CookieInv(Step(true, w, ServePost(r)))
  {
    var w' := Step(true, w, ServePost(r));
    hide CookieInv;
    if PostAt(w'.page, r).Accepted? {
      RotationKeepsCookies(w, w', r);
    } else {
      OnePostMoves(w, w', r);
    }
  }

  lemma ParsedIsKnown(w: World, r: Ref)
    requires CookieInv(w) && HasPost(w.page, r) && PostAt(w.page, r).Parsing?
    ensures PostAt(w.page, r).gen <= w.server.valid
  {
  }

  predicate ConcernsPosts(e: Event) {
    e.ServePost? || e.RefreshHeaders? || e.RefreshBody? || e.DirectHeaders? || e.DirectBody? || IsFault(e)
  }

  lemma PostEventKeepsCookies(w: World, e: Event)
    requires CookieInv(w) && Enabled(w, e) && ConcernsPosts(e)
    ensures CookieInv(Step(true, w, e))
  {
    var w' := Step(true, w, e);
    hide CookieInv;
    if e.ServePost? {
      ServeKeepsCookies(w, e.r);
    } else if e.RefreshHeaders? {
      AnswerKeepsCookies(w, w', Locked(e.p), w.page.posts[e.p]);
    } else if e.RefreshBody? {
      ParsedIsKnown(w, Locked(e.p));
      OnePostMoves(w, w', Locked(e.p));
    } else if e.DirectHeaders? {
      DirectHeadersKeepsCookies(w, e.d);
    } else if e.DirectBody? {
      ParsedIsKnown(w, Around(e.d));
      OnePostMoves(w, w', Around(e.d));
    } else {
      OnePostMoves(w, w', e.r);
    }
  }

  lemma CallEventKeepsCookies(w: World, e: Event)
    requires CookieInv(w) && Enabled(w, e) && !ConcernsPosts(e)
    ensures CookieInv(Step(true, w, e))
  {
    var w' := Step(true, w, e);
    assert UpTo(w.page.cookie, w.server.valid);
    hide CookieInv;
    match e
    case FirstResponse(i, unauthorized) =>
      if unauthorized { JoinKeepsCookies(w, w'); } else { SamePosts(w, w'); }
    case DirectResume(d) => OnePostMoves(w, w', Around(d));
    case DirectSend => OnePostMoves(w, w', Around(|w.page.directs|));
    case LogoutEnd(_, answered) => if answered { WipedKeepsCookies(w, w'); } else { SamePosts(w, w'); }
    case _ => SamePosts(w, w');
  }

  lemma StepKeepsCookies(w: World, e: Event)
    requires CookieInv(w) && Enabled(w, e)
    ensures CookieInv(Step(true, w, e))
  {
    hide CookieInv, Step, Enabled;
    if ConcernsPosts(e) {
      PostEventKeepsCookies(w, e);
    } else {
      CallEventKeepsCookies(w, e);
    }
  }

  /** The posts of the lock are as before, but for one that is not on its way back, or is new. */
  lemma SameOrder(pg: Page, pg': Page)
    requires OrderInv(pg) && |pg.posts| <= |pg'.posts|
    requires forall p :: 0 <= p < |pg'.posts| && (pg'.posts[p].Accepted? || pg'.posts[p].Parsing?) ==>
      p < |pg.posts| && (pg.posts[p].Accepted? || pg.posts[p].Parsing?) && pg.posts[p].gen == pg'.posts[p].gen
    requires forall q :: 0 <= q < |pg'.posts| && pg'.posts[q].Settled? && pg'.posts[q].ok ==>
      q < |pg.posts| && pg.posts[q] == pg'.posts[q]
    ensures OrderInv(pg')
  {
  }

  lemma ServeKeepsOrder(w: World, r: Ref)
    requires Inv(w) && Enabled(w, ServePost(r))
    ensures OrderInv(Step(true, w, ServePost(r)).page)
  {
    var pg, pg' := w.page, Step(true, w, ServePost(r)).page;
    forall p, q | 0 <= p < |pg'.posts| && 0 <= q < |pg'.posts|
      && (pg'.posts[p].Accepted? || pg'.posts[p].Parsing?) && pg'.posts[q].Settled? && pg'.posts[q].ok
      ensures pg'.posts[q].gen <= pg'.posts[p].gen
    {
      assert HasPost(pg, Locked(q)) && PostAt(pg, Locked(q)) == pg.posts[q];
    }
  }

  /** When the body of a refresh arrives, nothing else of the lock is under way. */
  lemma BodyKeepsOrder(w: World, p: nat)
    requires PageInv(w.page) && Enabled(w, RefreshBody(p))
    ensures OrderInv(Step(true, w, RefreshBody(p)).page)
  {
    var pg, pg' := w.page, Step(true, w, RefreshBody(p)).page;
    UnsettledPost(pg, p);
    assert forall q :: 0 <= q < |pg'.posts| ==> pg'.posts[q].Settled?;
  }

  lemma OtherPostEventKeepsOrder(w: World, e: Event)
    requires OrderInv(w.page) && Enabled(w, e) && ConcernsPosts(e) && !e.ServePost? && !e.RefreshBody?
    ensures OrderInv(Step(true, w, e).page)
  {
    hide OrderInv;
    SameOrder(w.page, Step(true, w, e).page);
  }

  lemma CallEventKeepsOrder(w: World, e: Event)
    requires OrderInv(w.page) && Enabled(w, e) && !ConcernsPosts(e)
    ensures OrderInv(Step(true, w, e).page)
  {
    hide OrderInv;
    SameOrder(w.page, Step(true, w, e).page);
  }

  lemma StepKeepsOrder(w: World, e: Event)
    requires Inv(w) && Enabled(w, e)
    ensures OrderInv(Step(true, w, e).page)
  {
    hide PageInv, CookieInv, OrderInv, Step, Enabled;
    if e.ServePost? {
      ServeKeepsOrder(w, e.r);
    } else if e.RefreshBody? {
      BodyKeepsOrder(w, e.p);
    } else if ConcernsPosts(e) {
      OtherPostEventKeepsOrder(w, e);
    } else {
      CallEventKeepsOrder(w, e);
    }
  }

  lemma {:induction false} StepKeepsInv(w: World, e: Event)
    requires Inv(w) && Enabled(w, e)
    ensures Inv(Step(true, w, e))
  {
    hide PageInv, CookieInv, OrderInv, Step;
    StepKeepsPage(w, e);
    StepKeepsCookies(w, e);
    StepKeepsOrder(w, e);
  }

  lemma {:induction false} RunKeepsInv(w: World, es: seq<Event>, w': World)
    requires Inv(w) && IsRun(LockedStep, w, es, w')
    ensures Inv(w')
    decreases |es|
  {
    if es != [] {
      StepKeepsInv(w, es[0]);
      RunKeepsInv(Step(true, w, es[0]), es[1..], w');
    }
  }

  lemma ReachableInv(w: World)
    requires IsReachable(w)
    ensures Inv(w)
  {
    var n: nat :| Reachable(LockedStep, Init(n), w);
    var es :| IsRun(LockedStep, Init(n), es, w);
    InitInv(n);
    RunKeepsInv(Init(n), es, w);
  }

  // ----- Single flight -----

  predicate Outstanding(pg: Page, p: nat) {
    p < |pg.posts| && !pg.posts[p].Settled?
  }

  /**
   In every run whatsoever the promise is non-null exactly while one POST of the lock is outstanding, and never
   two are.
  */
  lemma SingleFlight(w: World)
    requires IsReachable(w)
    ensures w.page.refreshPromise.Some? <==> exists p: nat :: Outstanding(w.page, p)
    ensures forall p: nat, q: nat :: Outstanding(w.page, p) && Outstanding(w.page, q) ==> p == q
    ensures forall p: nat :: Outstanding(w.page, p) ==> w.page.refreshPromise == Some(p)
  {
    ReachableInv(w);
    forall p: nat | Outstanding(w.page, p) ensures w.page.refreshPromise == Some(p) {
      assert w.page.posts[p].Settled? <==> w.page.refreshPromise != Some(p);
    }
    if w.page.refreshPromise.Some? {
      var p := w.page.refreshPromise.value;
      assert w.page.posts[p].Settled? <==> w.page.refreshPromise != Some(p);
      assert Outstanding(w.page, p);
    }
  }

  // ----- Waiters -----

  /** The refresh a request has resumed from, and what it made of it. */
  predicate ResumedFrom(r: Request, p: nat, ok: bool) {
    match r.phase
    case Retry(q, _) => q == p && ok
    case Done(result, joined) => joined == Some(p) && ok == result.Finished?
    case _ => false
  }

  /** All requests that joined one refresh got the same result. */
  lemma WaitersAgree(w: World, i: nat, j: nat, p: nat, ok: bool, ok': bool)
    requires IsReachable(w)
    requires i < |w.page.requests| && ResumedFrom(w.page.requests[i], p, ok)
    requires j < |w.page.requests| && ResumedFrom(w.page.requests[j], p, ok')
    ensures ok == ok' && Resolved(w.page, p, ok)
  {
    ReachableInv(w);
    assert RequestInv(w.page, w.page.requests[i]) && RequestInv(w.page, w.page.requests[j]);
  }

  // ----- Freshness -----

  /** A token read now is at least as new as generation `gen`, unless a sign-out came after sign-out number `clears`. */
  predicate Fresh(token: Option<nat>, now: nat, gen: nat, clears: nat) {
    match token
    case None => clears < now
    case Some(t) => gen <= t
  }

  /** Request `i` waits for a refresh that has succeeded, and will read the store. */
  predicate ReadsSoon(pg: Page, i: nat) {
    i < |pg.requests| && pg.requests[i].phase.Waiting? && Resolved(pg, pg.requests[i].phase.post, true)
  }

  predicate ReadsFresh(pg: Page, i: nat)
    requires ReadsSoon(pg, i)
  {
    var p := pg.requests[i].phase.post;
    Fresh(pg.accessToken, pg.clears, pg.posts[p].gen, pg.posts[p].clears)
  }

  /**
   Every waiter that continues now gets a token at least as new as the refresh it waited for, or none after a
   sign-out.
  */
  ghost predicate StoreIsFresh(pg: Page) {
    forall i: nat :: ReadsSoon(pg, i) ==> ReadsFresh(pg, i)
  }

  ghost predicate RetriesAreFresh(pg: Page) {
    forall i :: 0 <= i < |pg.requests| && pg.requests[i].phase.Retry? ==>
      var phase := pg.requests[i].phase;
      Resolved(pg, phase.post, true)
        && Fresh(phase.token, pg.clears, pg.posts[phase.post].gen, pg.posts[phase.post].clears)
  }

  /**
   The body of a direct answer does not arrive between the completion of a newer refresh of the lock and the
   retries of those who waited for it.
  */
  ghost predicate InOrder(w: World, e: Event)
    requires Enabled(w, e)
  {
    e.DirectBody? ==>
      forall i: nat :: ReadsSoon(w.page, i)
        ==> w.page.posts[w.page.requests[i].phase.post].gen <= w.page.directs[e.d].post.gen
  }

  ghost function OrderedStep(w: World, e: Event): World
    requires Enabled(w, e) && InOrder(w, e)
  {
    Step(true, w, e)
  }

  lemma BodyKeepsFresh(w: World, p: nat)
    requires OrderInv(w.page) && Enabled(w, RefreshBody(p))
    ensures StoreIsFresh(Step(true, w, RefreshBody(p)).page)
  {
  }

  lemma JoinedIsUnsettled(w: World, i: nat)
    requires PageInv(w.page) && Enabled(w, FirstResponse(i, true))
    ensures !ReadsSoon(Step(true, w, FirstResponse(i, true)).page, i)
  {
    hide Sum;
  }

  /** A step that settles no refresh of the lock as successful gives no further request a reason to read the store. */
  lemma ReadBefore(w: World, e: Event, i: nat)
    requires PageInv(w.page) && CookieInv(w) && Enabled(w, e) && !e.RefreshBody? && ReadsSoon(Step(true, w, e).page, i)
    ensures ReadsSoon(w.page, i) && w.page.requests[i] == Step(true, w, e).page.requests[i]
    ensures var p := w.page.requests[i].phase.post;
      w.page.posts[p] == Step(true, w, e).page.posts[p] && w.page.posts[p].clears <= w.page.clears
  {
    var pg' := Step(true, w, e).page;
    SettledBefore(w, e, pg'.requests[i].phase.post);
    if e.FirstResponse? && e.unauthorized {
      JoinedIsUnsettled(w, e.i);
    }
    hide PageInv, CookieInv;
  }

  /** A step that stores no token but a newer one keeps the store fresh. */
  lemma OtherStepKeepsStore(w: World, e: Event)
    requires Inv(w) && StoreIsFresh(w.page) && Enabled(w, e) && InOrder(w, e) && !e.RefreshBody?
    ensures StoreIsFresh(Step(true, w, e).page)
  {
    hide PageInv, CookieInv, OrderInv, Step;
    var pg, pg' := w.page, Step(true, w, e).page;
    forall i: nat | ReadsSoon(pg', i)
      ensures ReadsFresh(pg', i)
    {
      ReadBefore(w, e, i);
      StoreMoves(w, e);
    }
  }

  lemma SettledBefore(w: World, e: Event, p: nat)
    requires CookieInv(w) && Enabled(w, e) && !e.RefreshBody? && Resolved(Step(true, w, e).page, p, true)
    ensures p < |w.page.posts| && w.page.posts[p] == Step(true, w, e).page.posts[p]
    ensures w.page.posts[p].clears <= w.page.clears
  {
    hide CookieInv, InOrder, StoreIsFresh;
    assert p < |w.page.posts| && w.page.posts[p] == Step(true, w, e).page.posts[p];
    KnownSignOuts(w, p);
  }

  lemma KnownSignOuts(w: World, p: nat)
    requires CookieInv(w) && IsSettled(w.page, p)
    ensures w.page.posts[p].clears <= w.page.clears
  {
    assert HasPost(w.page, Locked(p)) && PostAt(w.page, Locked(p)) == w.page.posts[p];
  }

  /** What a step that is no answer for the lock can do to the store. */
  lemma StoreMoves(w: World, e: Event)
    requires Enabled(w, e) && !e.RefreshBody?
    ensures var pg, pg' := w.page, Step(true, w, e).page;
      || (pg'.accessToken == pg.accessToken && pg'.clears == pg.clears)
      || (pg'.accessToken == None && pg'.clears == pg.clears + 1)
      || (e.DirectBody? && pg'.accessToken == Some(pg.directs[e.d].post.gen) && pg'.clears == pg.clears)
  {
  }

  lemma StepKeepsStore(w: World, e: Event)
    requires Inv(w) && StoreIsFresh(w.page) && Enabled(w, e) && InOrder(w, e)
    ensures StoreIsFresh(Step(true, w, e).page)
  {
    hide PageInv, CookieInv, OrderInv, StoreIsFresh, Step, InOrder;
    if e.RefreshBody? {
      BodyKeepsFresh(w, e.p);
    } else {
      OtherStepKeepsStore(w, e);
    }
  }

  /** What is settled stays settled, and sign-outs are only counted up. */
  lemma SettledPostStays(w: World, e: Event, p: nat)
    requires Enabled(w, e) && IsSettled(w.page, p)
    ensures IsSettled(Step(true, w, e).page, p) && Step(true, w, e).page.posts[p] == w.page.posts[p]
    ensures w.page.clears <= Step(true, w, e).page.clears
  {
  }

  /** A retry was one before, or starts now with the token in the store. */
  lemma RetryBefore(w: World, e: Event, i: nat)
    requires StoreIsFresh(w.page) && RetriesAreFresh(w.page) && Enabled(w, e)
    requires i < |Step(true, w, e).page.requests| && Step(true, w, e).page.requests[i].phase.Retry?
    ensures var pg, phase := w.page, Step(true, w, e).page.requests[i].phase;
      Resolved(pg, phase.post, true)
      && Fresh(phase.token, pg.clears, pg.posts[phase.post].gen, pg.posts[phase.post].clears)
  {
    assert ReadsSoon(w.page, i) ==> ReadsFresh(w.page, i);
  }

  lemma StepKeepsRetries(w: World, e: Event)
    requires Inv(w) && StoreIsFresh(w.page) && RetriesAreFresh(w.page) && Enabled(w, e)
    ensures RetriesAreFresh(Step(true, w, e).page)
  {
    hide Inv, StoreIsFresh, Step;
    var pg, pg' := w.page, Step(true, w, e).page;
    forall i | 0 <= i < |pg'.requests| && pg'.requests[i].phase.Retry?
      ensures var phase := pg'.requests[i].phase;
        Resolved(pg', phase.post, true)
          && Fresh(phase.token, pg'.clears, pg'.posts[phase.post].gen, pg'.posts[phase.post].clears)
    {
      RetryBefore(w, e, i);
      SettledPostStays(w, e, pg'.requests[i].phase.post);
    }
  }

  lemma {:induction false} OrderedRunKeepsFresh(w: World, es: seq<Event>, w': World)
    requires Inv(w) && StoreIsFresh(w.page) && RetriesAreFresh(w.page) && IsRun(OrderedStep, w, es, w')
    ensures Inv(w') && StoreIsFresh(w'.page) && RetriesAreFresh(w'.page)
    decreases |es|
  {
    if es != [] {
      hide Inv, StoreIsFresh, RetriesAreFresh, InOrder, Step;
      StepKeepsInv(w, es[0]);
      StepKeepsStore(w, es[0]);
      StepKeepsRetries(w, es[0]);
      OrderedRunKeepsFresh(Step(true, w, es[0]), es[1..], w');
    }
  }

  /**
   As long as no direct answer comes in late, a retry carries a token at least as new as the refresh it
   waited for, or none at all if a sign-out came after that refresh.
  */
  lemma RetryIsFresh(n: nat, es: seq<Event>, w: World, i: nat)
    requires IsRun(OrderedStep, Init(n), es, w)
    requires i < |w.page.requests| && w.page.requests[i].phase.Retry?
    ensures var p := w.page.requests[i].phase.post;
      && Resolved(w.page, p, true)
      && match w.page.requests[i].phase.token
         case Some(token) => w.page.posts[p].gen <= token
         case None => w.page.posts[p].clears < w.page.clears
  {
    InitInv(n);
    OrderedRunKeepsFresh(Init(n), es, w);
  }

  ghost predicate RetriesStayFresh(w: World) {
    forall es, w' :: IsRun(OrderedStep, w, es, w') ==> RetriesAreFresh(w'.page)
  }

  lemma StaleReaderRetries(w: World, i: nat)
    requires ReadsSoon(w.page, i) && !ReadsFresh(w.page, i)
    ensures !RetriesStayFresh(w)
  {
    var v := Step(true, w, Resume(i));
    assert IsRun(OrderedStep, v, [], v);
    assert Enabled(w, Resume(i)) && InOrder(w, Resume(i));
    RunFirst(OrderedStep, w, Resume(i), [], v);
    assert v.page.requests[i].phase.Retry?;
  }

  /**
   The body of a direct answer spoils no retry, now or later, exactly when no request is about to read the store
   for a refresh of the lock that brought a newer token.
  */
  lemma {:induction false} LateBodyExactly(n: nat, es: seq<Event>, w: World, d: nat)
    requires IsRun(OrderedStep, Init(n), es, w) && Enabled(w, DirectBody(d))
    ensures RetriesStayFresh(Step(true, w, DirectBody(d))) <==>
      forall i: nat :: ReadsSoon(w.page, i)
        ==> w.page.posts[w.page.requests[i].phase.post].gen <= w.page.directs[d].post.gen
  {
    InitInv(n);
    OrderedRunKeepsFresh(Init(n), es, w);
    var v := Step(true, w, DirectBody(d));
    if InOrder(w, DirectBody(d)) {
      hide Inv, StoreIsFresh, RetriesAreFresh, Step;
      StepKeepsInv(w, DirectBody(d));
      StepKeepsStore(w, DirectBody(d));
      StepKeepsRetries(w, DirectBody(d));
      forall fs, w' | IsRun(OrderedStep, v, fs, w') ensures RetriesAreFresh(w'.page) {
        OrderedRunKeepsFresh(v, fs, w');
      }
    } else {
      var i: nat :| ReadsSoon(w.page, i)
        && w.page.directs[d].post.gen < w.page.posts[w.page.requests[i].phase.post].gen;
      hide Inv;
      assert ReadsSoon(v.page, i);
      StaleReaderRetries(v, i);
    }
  }

  // ----- Bounded work, no deadlock -----

  function PostWork(post: Post): nat {
    match post
    case Sent(_) => 3
    case Accepted(_) => 2
    case Refused(_, _) => 2
    case Parsing(_) => 1
    case Settled(_, _, _) => 0
  }

  function RequestWork(r: Request): nat {
    match r.phase
    case Idle => 7
    case First => 6
    case Waiting(_) => 2
    case Retry(_, _) => 1
    case Done(_, _) => 0
  }

  /** A first POST may still lead to a refresh of the lock, to waiting for it, and to a second POST. */
  function DirectWork(x: Direct): nat {
    match x
    case Posting(post, retried) => PostWork(post) + (if !retried && InFlight(post) then 6 else 0)
    case Joined(_) => 4
    case LoggedOut(_) => 0
  }

  function Work(w: World): nat {
    Sum(PostWork, w.page.posts) + Sum(RequestWork, w.page.requests) + Sum(DirectWork, w.page.directs)
  }

  /** The parts of a step: at most one post, one request and one direct call change, and at most one post is new. */
  lemma RequestUsesWork(w: World, w': World, i: nat)
    requires i < |w.page.requests| && |w'.page.requests| == |w.page.requests|
    requires w'.page.requests == w.page.requests[i := w'.page.requests[i]]
    requires w'.page.directs == w.page.directs
    requires || w'.page.posts == w.page.posts
             || w'.page.posts == w.page.posts + [Sent(w.page.cookie)]
    requires RequestWork(w'.page.requests[i]) + (|w'.page.posts| - |w.page.posts|) * 3 < RequestWork(w.page.requests[i])
    ensures Work(w') < Work(w)
  {
    hide RequestWork;
    SumUpdate(RequestWork, w.page.requests, i, w'.page.requests[i]);
    SumAppend(PostWork, w.page.posts, [Sent(w.page.cookie)]);
    assert Sum(PostWork, [Sent(w.page.cookie)]) == 3;
  }

  lemma DirectUsesWork(w: World, w': World, d: nat)
    requires d < |w.page.directs| && |w'.page.directs| == |w.page.directs|
    requires w'.page.directs == w.page.directs[d := w'.page.directs[d]]
    requires w'.page.requests == w.page.requests
    requires || w'.page.posts == w.page.posts
             || w'.page.posts == w.page.posts + [Sent(w'.page.cookie)]
    requires DirectWork(w'.page.directs[d]) + (|w'.page.posts| - |w.page.posts|) * 3 < DirectWork(w.page.directs[d])
    ensures Work(w') < Work(w)
  {
    hide DirectWork;
    SumUpdate(DirectWork, w.page.directs, d, w'.page.directs[d]);
    SumAppend(PostWork, w.page.posts, [Sent(w'.page.cookie)]);
    assert Sum(PostWork, [Sent(w'.page.cookie)]) == 3;
  }

  lemma PostUsesWork(w: World, w': World, p: nat)
    requires p < |w.page.posts| && |w'.page.posts| == |w.page.posts|
    requires w'.page.posts == w.page.posts[p := w'.page.posts[p]]
    requires PostWork(w'.page.posts[p]) < PostWork(w.page.posts[p])
    requires w'.page.requests == w.page.requests && w'.page.directs == w.page.directs
    ensures Work(w') < Work(w)
  {
    SumUpdate(PostWork, w.page.posts, p, w'.page.posts[p]);
  }

  lemma PostEventUsesWork(locked: bool, w: World, e: Event)
    requires Enabled(w, e) && (e.ServePost? || IsFault(e))
    ensures Work(Step(locked, w, e)) < Work(w)
  {
    hide Work;
    match e.r
    case Locked(p) => PostUsesWork(w, Step(locked, w, e), p);
    case Around(d) => DirectUsesWork(w, Step(locked, w, e), d);
  }

  lemma DirectEventUsesWork(locked: bool, w: World, e: Event)
    requires Enabled(w, e) && (e.DirectHeaders? || e.DirectBody? || e.DirectResume?)
    ensures Work(Step(locked, w, e)) < Work(w)
  {
    hide Work;
    DirectUsesWork(w, Step(locked, w, e), e.d);
  }

  lemma RequestEventUsesWork(locked: bool, w: World, e: Event)
    requires Enabled(w, e) && (e.Send? || e.FirstResponse? || e.Resume? || e.RetryResponse?)
    ensures Work(Step(locked, w, e)) < Work(w)
  {
    hide Work;
    RequestUsesWork(w, Step(locked, w, e), e.i);
  }

  lemma DirectSendWork(locked: bool, w: World)
    ensures Work(Step(locked, w, DirectSend)) == Work(w) + 9
  {
    SumAppend(DirectWork, w.page.directs, [Posting(Sent(w.page.cookie), false)]);
    assert Sum(DirectWork, [Posting(Sent(w.page.cookie), false)]) == 9;
  }

  lemma EnvironmentWork(locked: bool, w: World, e: Event)
    requires Enabled(w, e) && IsEnvironment(e) && !e.DirectSend?
    ensures Work(Step(locked, w, e)) == Work(w)
  {
    hide Sum;
  }

  lemma AnswerUsesWork(locked: bool, w: World, e: Event)
    requires Enabled(w, e) && (e.RefreshHeaders? || e.RefreshBody?)
    ensures Work(Step(locked, w, e)) < Work(w)
  {
    hide Work;
    PostUsesWork(w, Step(locked, w, e), e.p);
  }

  /** Every step of the protocol, and every fault, uses up work; of the environment only a new direct call adds some. */
  lemma StepUsesWork(locked: bool, w: World, e: Event)
    requires Enabled(w, e)
    ensures var w' := Step(locked, w, e);
      if e.DirectSend? then Work(w') == Work(w) + 9
      else if IsEnvironment(e) then Work(w') == Work(w)
      else Work(w') < Work(w)
  {
    hide Work, Step;
    if e.DirectSend? {
      DirectSendWork(locked, w);
    } else if IsEnvironment(e) {
      EnvironmentWork(locked, w, e);
    } else if e.ServePost? || IsFault(e) {
      PostEventUsesWork(locked, w, e);
    } else if e.RefreshHeaders? || e.RefreshBody? {
      AnswerUsesWork(locked, w, e);
    } else if e.DirectHeaders? || e.DirectBody? || e.DirectResume? {
      DirectEventUsesWork(locked, w, e);
    } else {
      RequestEventUsesWork(locked, w, e);
    }
  }

  function CountWork(es: seq<Event>): nat {
    if es == [] then 0 else (if IsEnvironment(es[0]) then 0 else 1) + CountWork(es[1..])
  }

  function CountDirects(es: seq<Event>): nat {
    if es == [] then 0 else (if es[0].DirectSend? then 1 else 0) + CountDirects(es[1..])
  }

  lemma StepKeepsCalls(locked: bool, w: World, e: Event)
    requires Enabled(w, e)
    ensures var w' := Step(locked, w, e);
      && |w'.page.requests| == |w.page.requests|
      && |w'.page.directs| == |w.page.directs| + (if e.DirectSend? then 1 else 0)
  {
  }

  lemma {:induction false} RunUsesWork(w: World, es: seq<Event>, w': World)
    requires IsRun(LockedStep, w, es, w')
    ensures CountWork(es) + Work(w') <= Work(w) + 9 * CountDirects(es)
    ensures |w'.page.requests| == |w.page.requests|
    ensures |w'.page.directs| == |w.page.directs| + CountDirects(es)
    decreases |es|
  {
    if es != [] {
      hide Work, Step, Enabled;
      StepUsesWork(true, w, es[0]);
      StepKeepsCalls(true, w, es[0]);
      RunUsesWork(Step(true, w, es[0]), es[1..], w');
    }
  }

  /**
   Every run of `n` requests and `k` direct refreshes has at most `7 * n + 9 * k` steps besides those of the
   environment; each request fetches at most twice and waits for at most one refresh, and the lock sends no
   more POSTs than calls whose first answer was a 401.
  */
  lemma BoundedWork(n: nat, es: seq<Event>, w: World)
    requires IsRun(LockedStep, Init(n), es, w)
    ensures CountWork(es) <= 7 * n + 9 * CountDirects(es)
    ensures |w.page.requests| == n
    ensures forall i :: 0 <= i < n ==> w.page.requests[i].fetches <= 2 && w.page.requests[i].waits <= 1
    ensures |w.page.posts| <= Sum(Waits, w.page.requests) + Sum(DirectWaits, w.page.directs) <= n + CountDirects(es)
  {
    SumBound(RequestWork, Init(n).page.requests, 7);
    RunUsesWork(Init(n), es, w);
    InitInv(n);
    RunKeepsInv(Init(n), es, w);
    assert forall i :: 0 <= i < n ==> RequestInv(w.page, w.page.requests[i]);
    SumBound(Waits, w.page.requests, 1);
    SumBound(DirectWaits, w.page.directs, 1);
  }

  ghost predicate Quiescent(w: World) {
    forall e :: IsProtocol(e) ==> !Enabled(w, e)
  }

  predicate DirectIsOver(x: Direct) {
    x.LoggedOut? || (x.Posting? && x.post.Settled?)
  }

  lemma QuietPost(w: World, r: Ref)
    requires Quiescent(w) && HasPost(w.page, r)
    ensures PostAt(w.page, r).Settled?
  {
    assert !Enabled(w, ServePost(r));
    match r
    case Locked(p) => assert !Enabled(w, RefreshHeaders(p)) && !Enabled(w, RefreshBody(p));
    case Around(d) => assert !Enabled(w, DirectHeaders(d)) && !Enabled(w, DirectBody(d));
  }

  lemma QuietRequest(w: World, i: nat)
    requires Quiescent(w) && PageInv(w.page) && i < |w.page.requests|
    requires forall p :: 0 <= p < |w.page.posts| ==> w.page.posts[p].Settled?
    ensures w.page.requests[i].phase.Done?
  {
    hide LockInv;
    assert RequestInv(w.page, w.page.requests[i]);
    assert !Enabled(w, Send(i)) && !Enabled(w, FirstResponse(i, true));
    assert !Enabled(w, Resume(i)) && !Enabled(w, RetryResponse(i));
  }

  /** No deadlock: whatever faults happened, while a request or a direct call is unfinished the protocol can go on. */
  lemma QuiescentMeansDone(w: World)
    requires IsReachable(w) && Quiescent(w)
    ensures forall i :: 0 <= i < |w.page.requests| ==> w.page.requests[i].phase.Done?
    ensures forall d :: 0 <= d < |w.page.directs| ==> DirectIsOver(w.page.directs[d])
    ensures w.page.refreshPromise.None?
  {
    ReachableInv(w);
    hide CookieInv, OrderInv;
    forall p | 0 <= p < |w.page.posts| ensures w.page.posts[p].Settled? {
      QuietPost(w, Locked(p));
    }
    forall i | 0 <= i < |w.page.requests| ensures w.page.requests[i].phase.Done? {
      QuietRequest(w, i);
    }
    forall d | 0 <= d < |w.page.directs| ensures DirectIsOver(w.page.directs[d]) {
      assert DirectInv(w.page, w.page.directs[d]);
      assert !Enabled(w, DirectResume(d));
      if w.page.directs[d].Posting? {
        QuietPost(w, Around(d));
      }
    }
  }
}
