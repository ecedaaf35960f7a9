/**
 The code of `frontend/lib/api.ts` and the auth store it writes, as an object: each method is the JavaScript
 that runs between two `await`s and refines the step of the same meaning in `TokenRefresh`. The object also
 stands for the pending fetches and the server at their other end. As `Valid` says that its state is reachable,
 every theorem about reachable states holds of the object.
*/
module ApiClient {
  import opened Options
  import opened Runs
  import opened TokenRefresh

  class Client {
    // auth store
    var accessToken: Option<nat>
    var user: Option<string>
    var isBanned: bool
    var clears: nat               // how often the store was cleared
    // module variable of api.ts
    var refreshPromise: Option<nat>
    // browser
    var location: string
    var cookie: Option<nat>
    var posts: seq<Post>
    var requests: seq<Request>
    var directs: seq<Direct>
    var logouts: seq<Logout>
    // the far end
    var server: Server

    ghost function PageView(): Page
      reads this
    {
      Page(accessToken, clears, refreshPromise, cookie, posts, requests, directs, logouts)
    }

    ghost function View(): World
      reads this
    {
      World(PageView(), server)
    }

    ghost predicate Valid()
      reads this
    {
      IsReachable(View())
    }

    /** The promise is set exactly while a POST of the lock is outstanding, and there is at most one. */
    lemma OnePostAtATime()
      requires Valid()
      ensures refreshPromise.Some? <==> exists p: nat :: Outstanding(PageView(), p)
      ensures forall p: nat, q: nat :: Outstanding(PageView(), p) && Outstanding(PageView(), q) ==> p == q
    {
      SingleFlight(View());
    }

    constructor (n: nat, user: Option<string>, location: string)
      ensures Valid() && View() == Init(n)
    {
      this.user, isBanned, this.location := user, false, location;
      accessToken, clears, refreshPromise, cookie := Some(0), 0, None, Some(0);
      posts, requests, directs, logouts := [], seq(n, _ => Request(Idle, 0, 0)), [], [];
      server := Server(true, 0, 0);
      new;
      InitialIsReachable(LockedStep, Init(n));
    }

    method SetAccessToken(token: nat)
      modifies this`accessToken
      ensures accessToken == Some(token)
    {
      accessToken := Some(token);
    }

    method ClearStore()
      modifies this`accessToken, this`user, this`clears
      ensures PageView() == SignOut(old(PageView()))
      ensures accessToken == None && clears == old(clears) + 1 && user == None
    {
      accessToken, user := None, None;
      clears := clears + 1;
    }

    method Leave()
      modifies this`accessToken, this`user, this`isBanned, this`location, this`clears
      ensures PageView() == SignOut(old(PageView()))
      ensures accessToken == None && clears == old(clears) + 1
      ensures user == None && !isBanned && location == "/login"
    {
      ClearStore();
      isBanned := false;
      location := "/login";
    }

    /** `clearAuth()` stays on the page and keeps the ban. */
    method ClearAuthStore()
      requires Valid()
      modifies this`accessToken, this`user, this`clears
      ensures Valid() && View() == Step(true, old(View()), ClearAuth)
      ensures accessToken == None && clears == old(clears) + 1 && user == None
    {
      NextIsReachable(View(), ClearAuth);
      ClearStore();
    }

    method Logout()
      requires Valid()
      modifies this`accessToken, this`user, this`isBanned, this`location, this`clears
      ensures Valid() && View() == Step(true, old(View()), ClearAuth)
      ensures accessToken == None && clears == old(clears) + 1
      ensures user == None && !isBanned && location == "/login"
    {
      NextIsReachable(View(), ClearAuth);
      Leave();
    }

    method JoinOrStartRefresh() returns (p: nat)
      modifies this`posts, this`refreshPromise
      ensures (PageView(), p) == TryRefresh(true, old(PageView()))
      ensures old(refreshPromise).Some? ==>
        p == refreshPromise.value && refreshPromise == old(refreshPromise) && posts == old(posts)
      ensures old(refreshPromise).None? ==>
        p == |old(posts)| && refreshPromise == Some(p) && posts == old(posts) + [Sent(cookie)]
    {
      if refreshPromise.Some? {
        return refreshPromise.value;
      }
      p := |posts|;
      posts := posts + [Sent(cookie)];
      refreshPromise := Some(p);
    }

    /** `return ok` inside the async function, followed by its `finally` block. */
    method FinishRefresh(p: nat, ok: bool, gen: nat)
      requires p < |posts|
      modifies this`posts, this`refreshPromise
      ensures PageView() == Settle(old(PageView()), p, ok, gen)
      ensures refreshPromise == None && posts == old(posts)[p := Settled(ok, gen, clears)]
    {
      posts := posts[p := Settled(ok, gen, clears)];
      refreshPromise := None;
    }

    method ReceiveCookie(answer: Post)
      requires IsAnswer(answer)
      modifies this`cookie
      ensures PageView() == ApplyCookie(old(PageView()), answer)
      ensures cookie == if answer.Accepted? then Some(answer.gen) else if answer.wiping then None else old(cookie)
    {
      if answer.Accepted? {
        cookie := Some(answer.gen);
      } else if answer.wiping {
        cookie := None;
      }
    }

    method RefreshHeadersArrive(p: nat)
      requires Valid() && Enabled(View(), RefreshHeaders(p))
      modifies this`posts, this`refreshPromise, this`cookie
      ensures Valid() && View() == Step(true, old(View()), RefreshHeaders(p))
      ensures match old(posts[p])
        case Accepted(gen) =>
          cookie == Some(gen) && posts == old(posts)[p := Parsing(gen)] && refreshPromise == old(refreshPromise)
        case Refused(_, wiping) =>
          && cookie == (if wiping then None else old(cookie))
          && posts == old(posts)[p := Settled(false, 0, clears)] && refreshPromise == None
    {
      NextIsReachable(View(), RefreshHeaders(p));
      var answer := posts[p];
      ReceiveCookie(answer);
      if answer.Refused? {
        FinishRefresh(p, false, 0);
      } else {
        posts := posts[p := Parsing(answer.gen)];
      }
    }

    method RefreshBodyArrives(p: nat)
      requires Valid() && Enabled(View(), RefreshBody(p))
      modifies this`posts, this`refreshPromise, this`accessToken
      ensures Valid() && View() == Step(true, old(View()), RefreshBody(p))
      ensures accessToken == Some(old(posts[p].gen)) && refreshPromise == None
      ensures posts == old(posts)[p := Settled(true, old(posts[p].gen), clears)]
    {
      NextIsReachable(View(), RefreshBody(p));
      var token := posts[p].gen;
      SetAccessToken(token);
      FinishRefresh(p, true, token);
    }

    /** The `catch` block: the fetch or `res.json()` rejects. */
    method RefreshBreaks(p: nat, e: Event)
      requires e == BreakPost(Locked(p)) || e == BreakBody(Locked(p))
      requires Valid() && Enabled(View(), e)
      modifies this`posts, this`refreshPromise
      ensures Valid() && View() == Step(true, old(View()), e)
      ensures refreshPromise == None && posts == old(posts)[p := Settled(false, 0, clears)]
    {
      NextIsReachable(View(), e);
      FinishRefresh(p, false, 0);
    }

    method SendRequest(i: nat)
      requires Valid() && Enabled(View(), Send(i))
      modifies this`requests
      ensures Valid() && View() == Step(true, old(View()), Send(i))
      ensures var r := old(requests[i]); requests == old(requests)[i := Request(First, r.fetches + 1, r.waits)]
    {
      NextIsReachable(View(), Send(i));
      requests := requests[i := requests[i].(phase := First, fetches := requests[i].fetches + 1)];
    }

    method FirstResponseArrives(i: nat, unauthorized: bool)
      requires Valid() && Enabled(View(), FirstResponse(i, unauthorized))
      modifies this`requests, this`posts, this`refreshPromise
      ensures Valid() && View() == Step(true, old(View()), FirstResponse(i, unauthorized))
      ensures var r := old(requests[i]);
        if !unauthorized then
          && posts == old(posts) && refreshPromise == old(refreshPromise)
          && requests == old(requests)[i := Request(Done(Finished, None), r.fetches, r.waits)]
        else if old(refreshPromise).Some? then
          && posts == old(posts) && refreshPromise == old(refreshPromise)
          && requests == old(requests)[i := Request(Waiting(refreshPromise.value), r.fetches, r.waits + 1)]
        else
          && posts == old(posts) + [Sent(cookie)] && refreshPromise == Some(|old(posts)|)
          && requests == old(requests)[i := Request(Waiting(|old(posts)|), r.fetches, r.waits + 1)]
    {
      NextIsReachable(View(), FirstResponse(i, unauthorized));
      var r := requests[i];
      if unauthorized {
        var p := JoinOrStartRefresh();
        r := r.(phase := Waiting(p), waits := r.waits + 1);
      } else {
        r := r.(phase := Done(Finished, None));
      }
      requests := requests[i := r];
    }

    method ResumeWaiter(i: nat)
      requires Valid() && Enabled(View(), Resume(i))
      modifies this`requests, this`accessToken, this`user, this`isBanned, this`location, this`clears
      ensures Valid() && View() == Step(true, old(View()), Resume(i))
      ensures var r := old(requests[i]);
        var p := r.phase.post;
        if old(posts)[p].ok then
          && accessToken == old(accessToken) && clears == old(clears)
          && user == old(user) && isBanned == old(isBanned) && location == old(location)
          && requests == old(requests)[i := Request(Retry(p, accessToken), r.fetches + 1, r.waits)]
        else
          && accessToken == None && clears == old(clears) + 1
          && user == None && !isBanned && location == "/login"
          && requests == old(requests)[i := Request(Done(Expired, Some(p)), r.fetches, r.waits)]
    {
      NextIsReachable(View(), Resume(i));
      var r := requests[i];
      var refreshed := posts[r.phase.post].ok;
      if !refreshed {
        Leave();
        requests := requests[i := r.(phase := Done(Expired, Some(r.phase.post)))];
      } else {
        var newToken := accessToken;
        requests := requests[i := r.(phase := Retry(r.phase.post, newToken), fetches := r.fetches + 1)];
      }
    }

    method RetryResponseArrives(i: nat)
      requires Valid() && Enabled(View(), RetryResponse(i))
      modifies this`requests
      ensures Valid() && View() == Step(true, old(View()), RetryResponse(i))
      ensures var r := old(requests[i]);
        requests == old(requests)[i := Request(Done(Finished, Some(r.phase.post)), r.fetches, r.waits)]
    {
      NextIsReachable(View(), RetryResponse(i));
      requests := requests[i := requests[i].(phase := Done(Finished, Some(requests[i].phase.post)))];
    }

    // ----- fetchApi('/auth/refresh') -----

    method SendDirect()
      requires Valid()
      modifies this`directs
      ensures Valid() && View() == Step(true, old(View()), DirectSend)
      ensures directs == old(directs) + [Posting(Sent(cookie), false)]
    {
      NextIsReachable(View(), DirectSend);
      directs := directs + [Posting(Sent(cookie), false)];
    }

    method DirectHeadersArrive(d: nat)
      requires Valid() && Enabled(View(), DirectHeaders(d))
      modifies this`directs, this`posts, this`refreshPromise, this`cookie
      ensures Valid() && View() == Step(true, old(View()), DirectHeaders(d))
      ensures var retried := old(directs[d].retried);
        match old(directs[d].post)
        case Accepted(gen) =>
          && cookie == Some(gen) && directs == old(directs)[d := Posting(Parsing(gen), retried)]
          && posts == old(posts) && refreshPromise == old(refreshPromise)
        case Refused(unauthorized, wiping) =>
          && cookie == (if wiping then None else old(cookie))
          && (if !unauthorized || retried then
                && directs == old(directs)[d := Posting(Settled(false, 0, clears), retried)]
                && posts == old(posts) && refreshPromise == old(refreshPromise)
              else if old(refreshPromise).Some? then
                && directs == old(directs)[d := Joined(refreshPromise.value)]
                && posts == old(posts) && refreshPromise == old(refreshPromise)
              else
                && directs == old(directs)[d := Joined(|old(posts)|)]
                && posts == old(posts) + [Sent(cookie)] && refreshPromise == Some(|old(posts)|))
    {
      NextIsReachable(View(), DirectHeaders(d));
      var answer, retried := directs[d].post, directs[d].retried;
      ReceiveCookie(answer);
      var next: Direct;
      if answer.Accepted? {
        next := Posting(Parsing(answer.gen), retried);
      } else if answer.unauthorized && !retried {
        var p := JoinOrStartRefresh();
        next := Joined(p);
      } else {
        next := Posting(Settled(false, 0, clears), retried);
      }
      directs := directs[d := next];
    }

    method DirectBodyArrives(d: nat)
      requires Valid() && Enabled(View(), DirectBody(d))
      modifies this`directs, this`accessToken
      ensures Valid() && View() == Step(true, old(View()), DirectBody(d))
      ensures var gen := old(directs[d].post.gen);
        && accessToken == Some(gen)
        && directs == old(directs)[d := Posting(Settled(true, gen, clears), old(directs[d].retried))]
    {
      NextIsReachable(View(), DirectBody(d));
      var token := directs[d].post.gen;
      SetAccessToken(token);
      directs := directs[d := Posting(Settled(true, token, clears), directs[d].retried)];
    }

    method ResumeDirect(d: nat)
      requires Valid() && Enabled(View(), DirectResume(d))
      modifies this`directs, this`accessToken, this`user, this`isBanned, this`location, this`clears
      ensures Valid() && View() == Step(true, old(View()), DirectResume(d))
      ensures var p := old(directs[d].lock);
        if old(posts)[p].ok then
          && accessToken == old(accessToken) && clears == old(clears)
          && user == old(user) && isBanned == old(isBanned) && location == old(location)
          && directs == old(directs)[d := Posting(Sent(cookie), true)]
        else
          && accessToken == None && clears == old(clears) + 1
          && user == None && !isBanned && location == "/login"
          && directs == old(directs)[d := LoggedOut(p)]
    {
      NextIsReachable(View(), DirectResume(d));
      var p := directs[d].lock;
      if posts[p].ok {
        directs := directs[d := Posting(Sent(cookie), true)];
      } else {
        Leave();
        directs := directs[d := LoggedOut(p)];
      }
    }

    /** The fetch or `res.json()` rejects, and the call of `fetchApi` with it. */
    method DirectBreaks(d: nat, e: Event)
      requires e == BreakPost(Around(d)) || e == BreakBody(Around(d))
      requires Valid() && Enabled(View(), e)
      modifies this`directs
      ensures Valid() && View() == Step(true, old(View()), e)
      ensures directs == old(directs)[d := Posting(Settled(false, 0, clears), old(directs[d].retried))]
    {
      NextIsReachable(View(), e);
      directs := directs[d := Posting(Settled(false, 0, clears), directs[d].retried)];
    }

    // ----- The buttons to log out -----

    method SendLogout()
      requires Valid()
      modifies this`logouts
      ensures Valid() && View() == Step(true, old(View()), LogoutSend)
      ensures logouts == old(logouts) + [LogoutSent(cookie)]
    {
      NextIsReachable(View(), LogoutSend);
      logouts := logouts + [LogoutSent(cookie)];
    }

    /** `logout()` behind the POST, which has been answered or has failed. */
    method LogoutEnds(l: nat, answered: bool)
      requires Valid() && Enabled(View(), LogoutEnd(l, answered))
      modifies this`logouts, this`cookie, this`accessToken, this`user, this`isBanned, this`location, this`clears
      ensures Valid() && View() == Step(true, old(View()), LogoutEnd(l, answered))
      ensures accessToken == None && clears == old(clears) + 1
      ensures user == None && !isBanned && location == "/login"
      ensures cookie == (if answered then None else old(cookie)) && logouts == old(logouts)[l := LogoutOver]
    {
      NextIsReachable(View(), LogoutEnd(l, answered));
      logouts := logouts[l := LogoutOver];
      if answered {
        cookie := None;
      }
      Leave();
    }

    // ----- The server -----

    method ServerAnswers(r: Ref)
      requires Valid() && Enabled(View(), ServePost(r))
      modifies this`posts, this`directs, this`server
      ensures Valid() && View() == Step(true, old(View()), ServePost(r))
      ensures var cookie := old(if r.Locked? then posts[r.p] else directs[r.d].post).cookie;
        var answer := if r.Locked? then posts[r.p] else directs[r.d].post;
        && (if r.Locked? then posts == old(posts)[r.p := answer] && directs == old(directs)
            else posts == old(posts) && directs == old(directs)[r.d := Posting(answer, old(directs[r.d].retried))])
        && (if cookie.None? then answer == Refused(true, false) && server == old(server)
            else if !old(server).alive then answer == Refused(true, true) && server == old(server)
            else if cookie.value == old(server).valid then
              answer == Accepted(old(server).valid + 1)
              && server == Server(true, old(server).valid + 1, old(server).consumed)
            else
              answer == Refused(true, true) && server == Server(true, old(server).valid, old(server).consumed + 1))
    {
      NextIsReachable(View(), ServePost(r));
      var sent := if r.Locked? then posts[r.p] else directs[r.d].post;
      var (next, answer) := Serve(server, sent.cookie);
      server := next;
      if r.Locked? {
        posts := posts[r.p := answer];
      } else {
        directs := directs[r.d := Posting(answer, directs[r.d].retried)];
      }
    }

    /** The rate limit, or an error or ban in the handler; the token stays valid. */
    method ServerTurnsAway(r: Ref, wipes: bool)
      requires Valid() && Enabled(View(), TurnAway(r, wipes))
      modifies this`posts, this`directs
      ensures Valid() && View() == Step(true, old(View()), TurnAway(r, wipes))
      ensures
        if r.Locked? then posts == old(posts)[r.p := Refused(false, wipes)] && directs == old(directs)
        else
          && posts == old(posts)
          && directs == old(directs)[r.d := Posting(Refused(false, wipes), old(directs[r.d].retried))]
    {
      NextIsReachable(View(), TurnAway(r, wipes));
      if r.Locked? {
        posts := posts[r.p := Refused(false, wipes)];
      } else {
        directs := directs[r.d := Posting(Refused(false, wipes), directs[r.d].retried)];
      }
    }

    method ServerRevokes(l: nat)
      requires Valid() && Enabled(View(), ServeLogout(l))
      modifies this`logouts, this`server
      ensures Valid() && View() == Step(true, old(View()), ServeLogout(l))
      ensures logouts == old(logouts)[l := LogoutServed]
      ensures server == if old(logouts[l].cookie) == Some(old(server).valid)
        then Server(false, old(server).valid, old(server).consumed) else old(server)
    {
      NextIsReachable(View(), ServeLogout(l));
      server := ServeRevocation(server, logouts[l].cookie);
      logouts := logouts[l := LogoutServed];
    }
  }
}
