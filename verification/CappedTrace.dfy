/**
  What a capped session sends, told send by send: why each follows the one before, what the
  last one met, and which exchanges end up in the history.
 */
module CappedTrace {
  import opened Options
  import opened BodyCap
  import opened CappedDriver

  /** A send in auth step `round`, with `depth` responses behind it. */
  datatype Send = Send(request: Request, round: nat, depth: nat)

  function RequestsOf(sends: seq<Send>): seq<Request> {
    seq(|sends|, i requires 0 <= i < |sends| => sends[i].request)
  }

  /** The answer is no redirect to follow, and so goes to the auth flow. */
  predicate Lands(w: Site, head: Head) {
    !w.followRedirects || head.next.None?
  }

  /** The flow can be sent the response: its body was read if the flow requires that. */
  predicate Readable(w: Site, auth: Auth, x: Send, head: Head) {
    auth.requiresBody ==> Verdict(x.request, head, w.cap).Kept?
  }

  /** The response can be closed: its body was read, or can be discarded. */
  predicate Closable(w: Site, auth: Auth, x: Send, head: Head) {
    auth.requiresBody || Discardable(x.request, head, w.cap)
  }

  /**
    Send `k` met an answer, and the next is the request that answer redirects to, one deeper;
    or, no redirect being followed, the one the auth flow asks for then, with one response
    behind it for each auth step so far.
   */
  predicate Links(w: Site, auth: Auth, k: nat, x: Send, y: Send) {
    && w.server(k).Gives?
    && var head := w.server(k).head;
       if y.round == x.round then
         && w.followRedirects && head.next == Some(y.request) && Discardable(x.request, head, w.cap)
         && y.depth == x.depth + 1
       else
         && y.round == x.round + 1 && y.depth == y.round
         && Lands(w, head) && Readable(w, auth, x, head) && Closable(w, auth, x, head)
         && auth.steps(x.round) == Ask(y.request)
  }

  predicate Linked(w: Site, auth: Auth, n: nat, sends: seq<Send>, i: int) {
    0 <= i < |sends| - 1 ==> Links(w, auth, n + i, sends[i], sends[i + 1])
  }

  /** The sends from number `n` on, each for its reason and within the limit. */
  ghost predicate Trace(w: Site, auth: Auth, n: nat, sends: seq<Send>) {
    && (forall i :: Linked(w, auth, n, sends, i))
    && forall i :: 0 <= i < |sends| ==> sends[i].depth <= w.maxRedirects
  }

  /** How a session ends after its last send. */
  predicate EndsAs(w: Site, auth: Auth, k: nat, last: Send, end: Ending) {
    if w.server(k).Fails? then end == Stopped(SendFailed)
    else
      var head := w.server(k).head;
      if !Lands(w, head) then
        if !Discardable(last.request, head, w.cap) then end == Stopped(DiscardFailed)
        else end == Stopped(TooManyRedirects) && last.depth == w.maxRedirects
      else if !Readable(w, auth, last, head) then end == Stopped(ReadFailed(Verdict(last.request, head, w.cap)))
      else if auth.steps(last.round).Stop? then end.Landed? && |end.behind| == last.depth
      else if auth.steps(last.round).Throw? then end == Stopped(AuthFailed)
      else if !Closable(w, auth, last, head) then end == Stopped(DiscardFailed)
      else end == Stopped(TooManyRedirects) && last.round == w.maxRedirects
  }

  /** Of send `i`: its exchange is in the history if it was redirected from in the last auth step, or ended an earlier one. */
  predicate Filed(w: Site, n: nat, sends: seq<Send>, behind: seq<Exchange>, i: int)
    requires sends != []
  {
    0 <= i < |sends| - 1 && w.server(n + i).Gives? ==>
      var exchange, x := Exchange(sends[i].request, w.server(n + i).head), sends[i];
      && (x.round == sends[|sends| - 1].round ==> x.depth < |behind| && behind[x.depth] == exchange)
      && (sends[i + 1].round != x.round ==> x.round < |behind| && behind[x.round] == exchange)
  }

  ghost predicate History(w: Site, n: nat, sends: seq<Send>, before: seq<Exchange>, behind: seq<Exchange>)
    requires sends != []
  {
    before <= behind && forall i :: Filed(w, n, sends, behind, i)
  }

  // ---- one round of redirects ----

  /** The sends of one auth step: each is the redirect of the one before. */
  ghost predicate Redirected(w: Site, n: nat, sends: seq<Send>, round: nat, depth: nat) {
    && (forall i :: 0 <= i < |sends| ==> sends[i].round == round && sends[i].depth == depth + i <= w.maxRedirects)
    && forall i :: Redirects(w, n, sends, i)
  }

  predicate Redirects(w: Site, n: nat, sends: seq<Send>, i: int) {
    0 <= i < |sends| - 1 ==>
      && w.server(n + i).Gives? && w.followRedirects && w.server(n + i).head.next == Some(sends[i + 1].request)
      && Discardable(sends[i].request, w.server(n + i).head, w.cap)
  }

  /** How the redirects end after their last send. */
  predicate HopsEndAs(w: Site, k: nat, last: Send, end: Ending) {
    if w.server(k).Fails? then end == Stopped(SendFailed)
    else if Lands(w, w.server(k).head) then end.Landed? && |end.behind| == last.depth
    else if !Discardable(last.request, w.server(k).head, w.cap) then end == Stopped(DiscardFailed)
    else end == Stopped(TooManyRedirects) && last.depth == w.maxRedirects
  }

  predicate HopFiled(w: Site, n: nat, sends: seq<Send>, depth: nat, behind: seq<Exchange>, i: int) {
    0 <= i < |sends| - 1 && w.server(n + i).Gives? ==>
      depth + i < |behind| && behind[depth + i] == Exchange(sends[i].request, w.server(n + i).head)
  }

  /** Whether the answer to send `n` is a redirect that is followed. */
  predicate GoesOn(w: Site, request: Request, n: nat) {
    w.server(n).Gives? && !Lands(w, w.server(n).head) && Discardable(request, w.server(n).head, w.cap)
  }

  lemma OneHop(w: Site, request: Request, n: nat, behind: seq<Exchange>, round: nat)
    requires |behind| <= w.maxRedirects
    ensures if GoesOn(w, request, n) then
              && w.server(n).Gives? && w.server(n).head.next.Some?
              && var head := w.server(n).head;
                 Follow(w, request, n, behind)
                 == After([request], Follow(w, head.next.value, n + 1, behind + [Exchange(request, head)]))
            else
              var run := Follow(w, request, n, behind);
              && run.sent == [request] && HopsEndAs(w, n, Send(request, round, |behind|), run.end)
              && (run.end.Landed? ==> run.end.behind == behind)
  {
    hide Discardable;
  }

  lemma {:induction false} FollowTrace(w: Site, request: Request, n: nat, behind: seq<Exchange>, round: nat)
    returns (sends: seq<Send>)
    ensures RequestsOf(sends) == Follow(w, request, n, behind).sent
    ensures Redirected(w, n, sends, round, |behind|)
    ensures Hopped(w, request, n, behind, round, sends, Follow(w, request, n, behind).end)
    decreases w.maxRedirects + 1 - |behind|
  {
    hide Discardable, Follow, GoesOn, Redirected, Hopped, RequestsOf;
    if |behind| > w.maxRedirects {
      sends := [];
      NoHop(w, request, n, behind, round);
    } else {
      OneHop(w, request, n, behind, round);
      var first := Send(request, round, |behind|);
      sends := [first];
      if GoesOn(w, request, n) {
        var head := w.server(n).head;
        var more := behind + [Exchange(request, head)];
        var rest := FollowTrace(w, head.next.value, n + 1, more, round);
        var end := Follow(w, head.next.value, n + 1, more).end;
        FirstRedirects(w, n, request, head.next.value, more, round, first, rest, end);
        RedirectsOn(w, n, first, rest, round, |behind|);
        HoppedOn(w, n, behind, round, first, rest, end);
        sends := [first] + rest;
        RequestsOn(first, rest);
      } else {
        LastHop(w, n, behind, round, first, Follow(w, request, n, behind).end);
      }
    }
  }

  /** What a round of redirects comes to. */
  ghost predicate Hopped(w: Site, request: Request, n: nat, behind: seq<Exchange>, round: nat, sends: seq<Send>, end: Ending) {
    if |behind| > w.maxRedirects then sends == [] && end == Stopped(TooManyRedirects)
    else
      && sends != [] && sends[0] == Send(request, round, |behind|)
      && HopsEndAs(w, n + |sends| - 1, sends[|sends| - 1], end)
      && (end.Landed? ==> behind <= end.behind && forall i :: HopFiled(w, n, sends, |behind|, end.behind, i))
  }

  lemma RequestsOn(first: Send, rest: seq<Send>)
    ensures RequestsOf([first] + rest) == [first.request] + RequestsOf(rest)
  {
  }

  lemma NoHop(w: Site, request: Request, n: nat, behind: seq<Exchange>, round: nat)
    requires |behind| > w.maxRedirects
    ensures var run := Follow(w, request, n, behind);
            RequestsOf([]) == run.sent && Hopped(w, request, n, behind, round, [], run.end)
    ensures Redirected(w, n, [], round, |behind|)
  {
  }

  lemma LastHop(w: Site, n: nat, behind: seq<Exchange>, round: nat, last: Send, end: Ending)
    requires |behind| <= w.maxRedirects && last.round == round && last.depth == |behind|
    requires HopsEndAs(w, n, last, end) && (end.Landed? ==> end.behind == behind)
    ensures Redirected(w, n, [last], round, |behind|) && Hopped(w, last.request, n, behind, round, [last], end)
    ensures RequestsOf([last]) == [last.request]
  {
    hide Discardable;
  }

  lemma FirstRedirects(w: Site, n: nat, request: Request, next: Request, more: seq<Exchange>, round: nat,
                       first: Send, rest: seq<Send>, end: Ending)
    requires GoesOn(w, request, n) && w.server(n).head.next == Some(next) && first.request == request
    requires Hopped(w, next, n + 1, more, round, rest, end)
    ensures rest != [] ==> Redirects(w, n, [first, rest[0]], 0)
  {
    hide Discardable;
  }

  /** A redirect in front of a round. */
  lemma HoppedOn(w: Site, n: nat, behind: seq<Exchange>, round: nat, first: Send, rest: seq<Send>, end: Ending)
    requires GoesOn(w, first.request, n) && w.server(n).head.next.Some?
    requires |behind| <= w.maxRedirects && first.round == round && first.depth == |behind|
    requires var head := w.server(n).head;
             Hopped(w, head.next.value, n + 1, behind + [Exchange(first.request, head)], round, rest, end)
    ensures Hopped(w, first.request, n, behind, round, [first] + rest, end)
  {
    hide Discardable;
    var head := w.server(n).head;
    var more, sends := behind + [Exchange(first.request, head)], [first] + rest;
    if end.Landed? {
      assert more[|behind|] == Exchange(first.request, head);
      forall i
        ensures HopFiled(w, n, sends, |behind|, end.behind, i)
      {
        assert HopFiled(w, n + 1, rest, |more|, end.behind, i - 1);
      }
    }
  }

  lemma RedirectsOn(w: Site, n: nat, first: Send, rest: seq<Send>, round: nat, depth: nat)
    requires Redirected(w, n + 1, rest, round, depth + 1) && first.round == round && first.depth == depth <= w.maxRedirects
    requires rest != [] ==> Redirects(w, n, [first, rest[0]], 0)
    ensures Redirected(w, n, [first] + rest, round, depth)
  {
    hide Discardable;
    var sends := [first] + rest;
    forall i
      ensures Redirects(w, n, sends, i)
    {
      assert Redirects(w, n + 1, rest, i - 1);
      if i == 0 && rest != [] {
        assert Redirects(w, n, [first, rest[0]], 0);
      }
    }
  }

  // ---- the whole session ----

  /** What a session from auth step `|behind|` on comes to. */
  ghost predicate Told(w: Site, auth: Auth, request: Request, n: nat, behind: seq<Exchange>, sends: seq<Send>, end: Ending) {
    if |behind| > w.maxRedirects then sends == [] && end == Stopped(TooManyRedirects)
    else
      && sends != [] && sends[0] == Send(request, |behind|, |behind|)
      && Trace(w, auth, n, sends)
      && (forall i :: 0 <= i < |sends| ==> sends[i].round >= |behind|)
      && EndsAs(w, auth, n + |sends| - 1, sends[|sends| - 1], end)
      && (end.Landed? ==> History(w, n, sends, behind, end.behind))
  }

  /** One round of redirects, after which the session is over, tells the session. */
  lemma RoundTold(w: Site, auth: Auth, request: Request, n: nat, behind: seq<Exchange>, hops: seq<Send>, landed: Ending,
                  end: Ending)
    requires |behind| <= w.maxRedirects
    requires Redirected(w, n, hops, |behind|, |behind|) && Hopped(w, request, n, behind, |behind|, hops, landed)
    requires EndsAs(w, auth, n + |hops| - 1, hops[|hops| - 1], end) && (end.Landed? ==> end == landed)
    ensures Told(w, auth, request, n, behind, hops, end)
  {
    hide Discardable, EndsAs, HopsEndAs;
    forall i
      ensures Linked(w, auth, n, hops, i)
    {
      assert Redirects(w, n, hops, i);
    }
    if end.Landed? {
      forall i
        ensures Filed(w, n, hops, end.behind, i)
      {
        assert HopFiled(w, n, hops, |behind|, end.behind, i);
      }
    }
  }

  /** A round of redirects, an answer the flow goes on from, and the session after it. */
  lemma RoundThenTold(w: Site, auth: Auth, request: Request, n: nat, behind: seq<Exchange>, hops: seq<Send>, landed: Ending,
                      next: Request, rest: seq<Send>, end: Ending)
    requires |behind| <= w.maxRedirects
    requires Redirected(w, n, hops, |behind|, |behind|) && Hopped(w, request, n, behind, |behind|, hops, landed)
    requires var k, last := n + |hops| - 1, hops[|hops| - 1];
             && w.server(k).Gives? && Lands(w, w.server(k).head)
             && Readable(w, auth, last, w.server(k).head) && Closable(w, auth, last, w.server(k).head)
             && auth.steps(|behind|) == Ask(next)
             && Told(w, auth, next, n + |hops|, behind + [Exchange(last.request, w.server(k).head)], rest, end)
    ensures Told(w, auth, request, n, behind, hops + rest, end)
  {
    hide Discardable, HopsEndAs, Verdict;
    var k, last, sends := n + |hops| - 1, hops[|hops| - 1], hops + rest;
    var exchange := Exchange(last.request, w.server(k).head);
    if rest == [] {
      assert sends == hops;
      RoundTold(w, auth, request, n, behind, hops, landed, end);
    } else {
      TraceOn(w, auth, n, behind, hops, rest);
      assert n + |sends| - 1 == n + |hops| + |rest| - 1 && sends[|sends| - 1] == rest[|rest| - 1];
      if end.Landed? {
        HistoryOn(w, n, behind, hops, rest, exchange, end.behind);
      }
    }
  }

  lemma TraceOn(w: Site, auth: Auth, n: nat, behind: seq<Exchange>, hops: seq<Send>, rest: seq<Send>)
    requires hops != [] && rest != [] && Redirected(w, n, hops, |behind|, |behind|) && Trace(w, auth, n + |hops|, rest)
    requires Links(w, auth, n + |hops| - 1, hops[|hops| - 1], rest[0])
    ensures Trace(w, auth, n, hops + rest)
  {
    hide Discardable, Lands, Readable, Closable;
    var sends := hops + rest;
    forall i
      ensures Linked(w, auth, n, sends, i)
    {
      if i < |hops| - 1 {
        assert Redirects(w, n, hops, i);
      } else if i >= |hops| {
        assert Linked(w, auth, n + |hops|, rest, i - |hops|);
      }
    }
  }

  lemma HistoryOn(w: Site, n: nat, behind: seq<Exchange>, hops: seq<Send>, rest: seq<Send>, exchange: Exchange,
                  final: seq<Exchange>)
    requires hops != [] && rest != [] && Redirected(w, n, hops, |behind|, |behind|)
    requires forall i :: 0 <= i < |rest| ==> rest[i].round > |behind|
    requires w.server(n + |hops| - 1) == Gives(exchange.head) && exchange.request == hops[|hops| - 1].request
    requires History(w, n + |hops|, rest, behind + [exchange], final)
    ensures History(w, n, hops + rest, behind, final)
  {
    hide Discardable;
    var sends := hops + rest;
    assert final[|behind|] == (behind + [exchange])[|behind|];
    forall i
      ensures Filed(w, n, sends, final, i)
    {
      assert sends[|sends| - 1] == rest[|rest| - 1];
      if i >= |hops| {
        assert Filed(w, n + |hops|, rest, final, i - |hops|);
      }
    }
    assert behind <= final;
  }

  /** A round the flow does not go on from ends the session. */
  lemma RoundEnds(w: Site, auth: Auth, request: Request, n: nat, behind: seq<Exchange>, last: Send)
    requires |behind| <= w.maxRedirects
    requires var run := Follow(w, request, n, behind);
             && run.sent != [] && last.request == run.sent[|run.sent| - 1] && last.round == |behind|
             && HopsEndAs(w, n + |run.sent| - 1, last, run.end)
             && (run.end.Landed? && Readable(w, auth, last, w.server(n + |run.sent| - 1).head) && auth.steps(|behind|).Ask?
                 ==> !Closable(w, auth, last, w.server(n + |run.sent| - 1).head))
    ensures var run, whole := Follow(w, request, n, behind), Drive(w, auth, request, n, behind);
            && whole.sent == run.sent && (whole.end.Landed? ==> whole.end == run.end)
            && EndsAs(w, auth, n + |run.sent| - 1, last, whole.end)
  {
    hide Discardable, Verdict, Follow;
  }

  lemma {:induction false} DriveTrace(w: Site, auth: Auth, request: Request, n: nat, behind: seq<Exchange>)
    returns (sends: seq<Send>)
    ensures RequestsOf(sends) == Drive(w, auth, request, n, behind).sent
    ensures Told(w, auth, request, n, behind, sends, Drive(w, auth, request, n, behind).end)
    decreases w.maxRedirects + 1 - |behind|
  {
    hide Discardable, Verdict, Follow, Redirected, Told, RequestsOf;
    var hops := FollowTrace(w, request, n, behind, |behind|);
    var landed := Follow(w, request, n, behind).end;
    sends := hops;
    if |behind| <= w.maxRedirects {
      LastRequest(hops);
      var k, last := n + |hops| - 1, hops[|hops| - 1];
      LastIn(w, n, hops, |behind|);
      var step := auth.steps(|behind|);
      if landed.Landed? && Readable(w, auth, last, w.server(k).head) && step.Ask? && Closable(w, auth, last, w.server(k).head) {
        var more := behind + [Exchange(last.request, w.server(k).head)];
        var rest := DriveTrace(w, auth, step.request, k + 1, more);
        var end := Drive(w, auth, step.request, k + 1, more).end;
        RoundThenTold(w, auth, request, n, behind, hops, landed, step.request, rest, end);
        sends := hops + rest;
        RequestsJoin(hops, rest);
      } else {
        RoundEnds(w, auth, request, n, behind, last);
        RoundTold(w, auth, request, n, behind, hops, landed, Drive(w, auth, request, n, behind).end);
      }
    } else {
      NothingTold(w, auth, request, n, behind);
    }
  }

  lemma LastRequest(sends: seq<Send>)
    requires sends != []
    ensures |RequestsOf(sends)| == |sends| && RequestsOf(sends)[|sends| - 1] == sends[|sends| - 1].request
  {
  }

  lemma LastIn(w: Site, n: nat, sends: seq<Send>, round: nat)
    requires sends != [] && exists depth: nat :: Redirected(w, n, sends, round, depth)
    ensures sends[|sends| - 1].round == round
  {
  }

  lemma RequestsJoin(a: seq<Send>, b: seq<Send>)
    ensures RequestsOf(a + b) == RequestsOf(a) + RequestsOf(b)
  {
  }

  lemma NothingTold(w: Site, auth: Auth, request: Request, n: nat, behind: seq<Exchange>)
    requires |behind| > w.maxRedirects
    ensures var run := Drive(w, auth, request, n, behind);
            Told(w, auth, request, n, behind, [], run.end) && run.sent == [] == RequestsOf([])
  {
  }

  /**
    Whatever the server and the flow do, the sends of a session follow one another each for
    its reason, none deeper than the limit; the session ends as its last answer and the flow
    say; and a landed one's history is the landings of the earlier auth steps and then the
    redirects of the last.
   */
  lemma SessionTrace(w: Site, auth: Auth, n: nat) returns (sends: seq<Send>)
    requires auth.first.Some? && w.maxRedirects >= 0
    ensures RequestsOf(sends) == Session(w, auth, n).sent && sends != [] && sends[0] == Send(auth.first.value, 0, 0)
    ensures Trace(w, auth, n, sends)
    ensures EndsAs(w, auth, n + |sends| - 1, sends[|sends| - 1], Session(w, auth, n).end)
    ensures Session(w, auth, n).end.Landed? ==> History(w, n, sends, [], Session(w, auth, n).end.behind)
  {
    hide Drive, Trace, EndsAs, History, RequestsOf;
    sends := DriveTrace(w, auth, auth.first.value, n, []);
  }
}
