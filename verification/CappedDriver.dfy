/**
  Sending under a body cap: redirects and the auth flow driven hop by hop, against any server
  and any flow.
 */
module CappedDriver {
  import opened Options
  import opened BodyCap

  datatype Answer = Fails | Gives(head: Head)

  /** `server(n)` is what the n-th send of the session meets. */
  datatype Site = Site(server: nat -> Answer, followRedirects: bool, maxRedirects: int, cap: nat)

  datatype Step = Stop | Throw | Ask(request: Request)

  /** An auth flow: its first request, if it yields one, and what it does with each response it is sent. */
  datatype Auth = Auth(first: Option<Request>, steps: nat -> Step, requiresBody: bool)

  datatype Failure = SendFailed | TooManyRedirects | DiscardFailed | ReadFailed(error: Read) | AuthFailed

  // ---- what a session sends, as a function of the scripts ----

  /** A request and the server's answer to it. */
  datatype Exchange = Exchange(request: Request, head: Head)

  /** A session lands with the exchanges `behind` its response, its history, or stops. */
  datatype Ending = Landed(behind: seq<Exchange>) | Stopped(why: Failure)

  datatype Run = Run(sent: seq<Request>, end: Ending)

  function After(sent: seq<Request>, rest: Run): Run {
    Run(sent + rest.sent, rest.end)
  }

  /** Redirects from `request` on, it being send number `n`, after the exchanges `behind`. */
  function Follow(w: Site, request: Request, n: nat, behind: seq<Exchange>): (run: Run)
    ensures run.end.Landed? ==> |run.sent| > 0 && |behind| + |run.sent| <= w.maxRedirects + 1
    ensures run.end.Landed? ==> w.server(n + |run.sent| - 1).Gives?
    decreases w.maxRedirects + 1 - |behind|
  {
    if |behind| > w.maxRedirects then Run([], Stopped(TooManyRedirects))
    else
      match w.server(n)
      case Fails => Run([request], Stopped(SendFailed))
      case Gives(head) =>
        if !w.followRedirects || head.next.None? then Run([request], Landed(behind))
        else if !Discardable(request, head, w.cap) then Run([request], Stopped(DiscardFailed))
        else After([request], Follow(w, head.next.value, n + 1, behind + [Exchange(request, head)]))
  }

  /** The session after the auth steps `behind`. */
  function Drive(w: Site, auth: Auth, request: Request, n: nat, behind: seq<Exchange>): Run
    decreases w.maxRedirects + 1 - |behind|
  {
    var hops := Follow(w, request, n, behind);
    if !hops.end.Landed? then hops
    else After(hops.sent, Answered(w, auth, hops.sent[|hops.sent| - 1], n + |hops.sent|, behind, hops.end))
  }

  /** What follows the response to send number `m - 1`, of request `last`: only it joins the history, not the redirects to it. */
  function Answered(w: Site, auth: Auth, last: Request, m: nat, behind: seq<Exchange>, landed: Ending): Run
    requires 0 < m && w.server(m - 1).Gives? && |behind| <= w.maxRedirects
    decreases w.maxRedirects + 1 - |behind|, 0
  {
    var head := w.server(m - 1).head;
    var verdict := Verdict(last, head, w.cap);
    if auth.requiresBody && !verdict.Kept? then Run([], Stopped(ReadFailed(verdict)))
    else
      match auth.steps(|behind|)
      case Stop => Run([], landed)
      case Throw => Run([], Stopped(AuthFailed))
      case Ask(next) =>
        if !auth.requiresBody && !Discardable(last, head, w.cap) then Run([], Stopped(DiscardFailed))
        else Drive(w, auth, next, m, behind + [Exchange(last, head)])
  }

  function Session(w: Site, auth: Auth, n: nat): Run {
    if auth.first.None? then Run([], Stopped(AuthFailed)) else Drive(w, auth, auth.first.value, n, [])
  }

  // ---- bounded work ----

  function Triangle(n: nat): nat {
    if n == 0 then 0 else n + Triangle(n - 1)
  }

  lemma {:induction false} TriangleIs(n: nat)
    ensures 2 * Triangle(n) == n * (n + 1)
  {
    if n > 0 {
      TriangleIs(n - 1);
    }
  }

  lemma {:induction false} FollowBounded(w: Site, request: Request, n: nat, behind: seq<Exchange>)
    ensures |Follow(w, request, n, behind).sent| <= if |behind| > w.maxRedirects then 0 else w.maxRedirects + 1 - |behind|
    decreases w.maxRedirects + 1 - |behind|
  {
    if |behind| <= w.maxRedirects && w.server(n).Gives? && w.server(n).head.next.Some? {
      var head := w.server(n).head;
      FollowBounded(w, head.next.value, n + 1, behind + [Exchange(request, head)]);
    }
  }

  lemma {:induction false} DriveBounded(w: Site, auth: Auth, request: Request, n: nat, behind: seq<Exchange>)
    ensures |Drive(w, auth, request, n, behind).sent|
         <= if |behind| > w.maxRedirects then 0 else Triangle(w.maxRedirects + 1 - |behind|)
    decreases w.maxRedirects + 1 - |behind|
  {
    hide Follow, Verdict, Discardable;
    FollowBounded(w, request, n, behind);
    var hops, step := Follow(w, request, n, behind), auth.steps(|behind|);
    if hops.end.Landed? && step.Ask? {
      var last, m := hops.sent[|hops.sent| - 1], n + |hops.sent|;
      DriveBounded(w, auth, step.request, m, behind + [Exchange(last, w.server(m - 1).head)]);
    }
  }

  /** However the server redirects and however long the auth flow goes on, at most (M + 1)(M + 2) / 2 requests are sent. */
  lemma BoundedWork(w: Site, auth: Auth, n: nat)
    ensures var m := w.maxRedirects; 2 * |Session(w, auth, n).sent| <= if m < 0 then 0 else (m + 1) * (m + 2)
  {
    if auth.first.Some? {
      DriveBounded(w, auth, auth.first.value, n, []);
      TriangleIs(if w.maxRedirects < 0 then 0 else w.maxRedirects + 1);
    }
  }

  /** In rounds of `size`, `size - 1`, ... sends: the size of the round of send `n`, and how many of its sends are left. */
  function Place(n: int, size: nat): (nat, nat) {
    if size == 0 then (0, 0) else if n < size then (size, size - n) else Place(n - size, size - 1)
  }

  lemma {:induction false} PlaceNext(n: nat, size: nat)
    ensures Place(n, size).1 >= 2 ==> Place(n + 1, size) == (Place(n, size).0, Place(n, size).1 - 1)
    ensures Place(n, size).1 == 1 ==> Place(n, size).0 > 0 && Place(n + 1, size) == (Place(n, size).0 - 1, Place(n, size).0 - 1)
  {
    if 0 < size <= n {
      PlaceNext(n - size, size - 1);
    }
  }

  const HOP := Request("GET", 0)

  function Redirect(next: Option<Request>): Head {
    Head(302, Missing, false, Stream([], false), Stream([], false), next)
  }

  /** Redirects for as long as the limit allows, and then gives the auth flow a response to go on from. */
  function Worst(m: nat): Site {
    Site(n => Gives(Redirect(if Place(n, m + 1).1 == 1 then None else Some(HOP))), true, m, 1)
  }

  function Endless(): Auth {
    Auth(Some(HOP), _ => Ask(HOP), false)
  }

  lemma RedirectDiscardable(request: Request, next: Option<Request>, cap: nat)
    ensures Discardable(request, Redirect(next), cap)
  {
  }

  lemma {:induction false} WorstHops(m: nat, n: nat, behind: seq<Exchange>)
    requires |behind| <= m && Place(n, m + 1).1 == m + 1 - |behind|
    ensures var run := Follow(Worst(m), HOP, n, behind); run.end.Landed? && |run.sent| == m + 1 - |behind|
    ensures var size := Place(n, m + 1).0; size > 0 && Place(n + (m + 1 - |behind|), m + 1) == (size - 1, size - 1)
    decreases m - |behind|
  {
    hide Place, Discardable;
    RedirectDiscardable(HOP, Some(HOP), 1);
    PlaceNext(n, m + 1);
    if |behind| < m {
      var more := behind + [Exchange(HOP, Redirect(Some(HOP)))];
      WorstHops(m, n + 1, more);
      assert n + 1 + (m + 1 - |more|) == n + (m + 1 - |behind|);
    }
  }

  lemma {:induction false} WorstDrive(m: nat, n: nat, behind: seq<Exchange>)
    requires |behind| <= m + 1 && Place(n, m + 1) == (m + 1 - |behind|, m + 1 - |behind|)
    ensures |Drive(Worst(m), Endless(), HOP, n, behind).sent| == Triangle(m + 1 - |behind|)
    decreases m + 1 - |behind|
  {
    hide Place, Discardable, Follow;
    if |behind| <= m {
      WorstHops(m, n, behind);
      var hops := Follow(Worst(m), HOP, n, behind);
      var last, k := hops.sent[|hops.sent| - 1], n + |hops.sent|;
      var head := Worst(m).server(k - 1).head;
      RedirectDiscardable(last, head.next, 1);
      assert head == Redirect(head.next);
      var more := behind + [Exchange(last, head)];
      assert Answered(Worst(m), Endless(), last, k, behind, hops.end) == Drive(Worst(m), Endless(), HOP, k, more);
      WorstDrive(m, k, more);
    } else {
      FollowBounded(Worst(m), HOP, n, behind);
    }
  }

  /** The bound is attained, for every limit. */
  lemma BoundAttained(m: nat)
    ensures Worst(m).maxRedirects == m && 2 * |Session(Worst(m), Endless(), 0).sent| == (m + 1) * (m + 2)
  {
    WorstDrive(m, 0, []);
    TriangleIs(m + 1);
  }

  // ---- the driver ----

  /** Each response's history is the responses before it. */
  ghost predicate Chained(h: seq<Response>)
    reads h
  {
    forall i :: 0 <= i < |h| ==> h[i].history == h[..i]
  }

  datatype Outcome = Returned(response: Response) | Raised(why: Failure)

  function ExchangeOf(r: Response): Exchange {
    Exchange(r.request, r.head)
  }

  function Exchanges(h: seq<Response>): seq<Exchange> {
    seq(|h|, i requires 0 <= i < |h| => ExchangeOf(h[i]))
  }

  lemma ExchangesNext(h: seq<Response>, r: Response)
    ensures Exchanges(h + [r]) == Exchanges(h) + [ExchangeOf(r)]
  {
  }

  function EndingOf(o: Outcome): Ending
    reads if o.Returned? then {o.response} else {}
  {
    if o.Returned? then Landed(Exchanges(o.response.history)) else Stopped(o.why)
  }

  /** The wrapped client: it has `sent` these requests and made these `responses`. */
  class Client {
    const site: Site
    var sent: seq<Request>
    ghost var responses: set<Response>

    constructor (site: Site)
      ensures this.site == site && sent == [] && responses == {}
    {
      this.site := site;
      sent := [];
      responses := {};
    }

    ghost predicate NoneOpen()
      reads this, responses
    {
      forall r :: r in responses ==> r.closed
    }

    /** No response but the one returned. */
    ghost predicate OpenAtMost(o: Outcome)
      reads this, responses
    {
      forall r :: r in responses ==> r.closed || o == Returned(r)
    }

    /** `response` is the server's to the last request sent. */
    ghost predicate Latest(response: Response)
      reads this
    {
      && response in responses && |sent| > 0
      && response.request == sent[|sent| - 1] && site.server(|sent| - 1) == Gives(response.head)
    }

    /** Never while another response is open. */
    method Send(request: Request) returns (r: Option<Response>)
      requires NoneOpen()
      modifies this
      ensures sent == old(sent) + [request]
      ensures site.server(|old(sent)|).Fails? <==> r.None?
      ensures responses == if r.Some? then old(responses) + {r.value} else old(responses)
      ensures r.Some? ==> fresh(r.value) && !r.value.closed && !r.value.consumed
      ensures r.Some? ==> r.value.request == request && r.value.head == site.server(|old(sent)|).head
    {
      var answer := site.server(|sent|);
      sent := sent + [request];
      match answer {
        case Fails => return None;
        case Gives(head) =>
          var response := new Response(request, head);
          responses := responses + {response};
          return Some(response);
      }
    }
  }

  /** `_discard_and_close`. */
  method DiscardAndClose(response: Response, cap: nat) returns (ok: bool)
    modifies response`consumed, response`closed
    ensures response.closed
    ensures ok == (old(response.consumed) || Discardable(response.request, response.head, cap))
  {
    ok := true;
    if !response.consumed {
      var fits, _ := DiscardWithinCap(response, cap);
      ok := fits;
    }
    response.Close();
  }

  /** `_read_capped_and_close`. */
  method ReadCappedAndClose(streaming: Response, cap: nat) returns (r: Result)
    modifies streaming`consumed, streaming`closed
    ensures streaming.closed
    ensures BodyCap.Answers(r, streaming, Verdict(streaming.request, streaming.head, cap))
    ensures r.Got? ==> (r.response == streaming || fresh(r.response)) && r.response.closed && r.response.consumed
                       && r.response.history == streaming.history
                       && r.response.request == streaming.request && r.response.head == streaming.head
  {
    r := ReadCapped(streaming, cap);
    streaming.Close();
  }

  /** One pass of the redirect loop, after `sent`. */
  lemma HopCases(w: Site, sent: seq<Request>, request: Request, behind: seq<Exchange>)
    ensures var n, all := |sent|, After(sent, Follow(w, request, |sent|, behind));
            var head, sent := if w.server(n).Gives? then w.server(n).head else Redirect(None), sent + [request];
            if |behind| > w.maxRedirects then all == Run(sent[..n], Stopped(TooManyRedirects))
            else if w.server(n).Fails? then all == Run(sent, Stopped(SendFailed))
            else if !w.followRedirects || head.next.None? then all == Run(sent, Landed(behind))
            else if !Discardable(request, head, w.cap) then all == Run(sent, Stopped(DiscardFailed))
            else all == After(sent, Follow(w, head.next.value, |sent|, behind + [Exchange(request, head)]))
  {
    hide Discardable;
    if |behind| <= w.maxRedirects && w.server(|sent|).Gives? && w.server(|sent|).head.next.Some? {
      var head := w.server(|sent|).head;
      var rest := Follow(w, head.next.value, |sent| + 1, behind + [Exchange(request, head)]);
      assert sent + ([request] + rest.sent) == sent + [request] + rest.sent;
    }
  }

  /** `_send_redirect_hops`. */
  method SendRedirectHops(client: Client, first: Request, prior: seq<Response>) returns (o: Outcome)
    requires client.NoneOpen() && Chained(prior)
    modifies client
    ensures fresh(client.responses - old(client.responses)) && old(client.responses) <= client.responses
    ensures Run(client.sent, EndingOf(o))
         == After(old(client.sent), Follow(client.site, first, |old(client.sent)|, Exchanges(prior)))
    ensures client.OpenAtMost(o)
    ensures o.Returned? ==> fresh(o.response) && client.Latest(o.response) && !o.response.closed && !o.response.consumed
    ensures o.Returned? ==> prior <= o.response.history && Chained(o.response.history)
    ensures o.Returned? ==> |o.response.history| <= client.site.maxRedirects
  {
    hide After, Follow, Discardable;
    var request, hops := first, prior;
    ghost var whole := After(client.sent, Follow(client.site, first, |client.sent|, Exchanges(prior)));
    while true
      invariant fresh(client.responses - old(client.responses)) && old(client.responses) <= client.responses
      invariant client.NoneOpen() && Chained(hops) && prior <= hops
      invariant whole == After(client.sent, Follow(client.site, request, |client.sent|, Exchanges(hops)))
      decreases client.site.maxRedirects + 1 - |hops|
    {
      HopCases(client.site, client.sent, request, Exchanges(hops));
      if |hops| > client.site.maxRedirects {
        return Raised(TooManyRedirects);
      }
      var r := client.Send(request);
      if r.None? {
        return Raised(SendFailed);
      }
      var response := r.value;
      response.history := hops;
      if !client.site.followRedirects || response.head.next.None? {
        return Returned(response);
      }
      var ok := DiscardAndClose(response, client.site.cap);
      if !ok {
        return Raised(DiscardFailed);
      }
      ExchangesNext(hops, response);
      hops := hops + [response];
      request := response.head.next.value;
    }
  }

  /**
    A session's result: the last answer, open unless it was read for the flow, with a chain
    of at most `max_redirects` behind it.
   */
  ghost predicate ReturnedAs(client: Client, response: Response, read: bool)
    reads client, response, response.history
  {
    && client.Latest(response)
    && (response.closed <==> read)
    && Chained(response.history) && |response.history| <= client.site.maxRedirects
  }

  /** An auth flow under way: a generator, closed by whoever drives it. */
  class AuthFlow {
    const auth: Auth
    var asked: nat
    var closed: bool

    constructor (auth: Auth)
      ensures this.auth == auth && asked == 0 && !closed
    {
      this.auth := auth;
      asked := 0;
      closed := false;
    }

    /** `flow.send(response)`. */
    method Ask(response: Response) returns (step: Step)
      requires !closed
      modifies this`asked
      ensures step == auth.steps(old(asked)) && asked == old(asked) + 1
    {
      step := auth.steps(asked);
      asked := asked + 1;
    }

    method Close()
      modifies this`closed
      ensures closed
    {
      closed := true;
    }
  }

  /** One pass of the auth loop, after `sent`. */
  lemma RoundCases(w: Site, auth: Auth, sent: seq<Request>, request: Request, behind: seq<Exchange>)
    ensures var all, hops := After(sent, Drive(w, auth, request, |sent|, behind)),
        After(sent, Follow(w, request, |sent|, behind));
            var n := |hops.sent|;
            if !hops.end.Landed? then all == hops
            else n > 0 && w.server(n - 1).Gives? && |behind| <= w.maxRedirects
                 && all == After(hops.sent, Answered(w, auth, hops.sent[n - 1], n, behind, hops.end))
  {
    hide Follow, Answered;
    var hops := Follow(w, request, |sent|, behind);
    if hops.end.Landed? {
      var rest := Answered(w, auth, hops.sent[|hops.sent| - 1], |sent| + |hops.sent|, behind, hops.end);
      assert sent + (hops.sent + rest.sent) == sent + hops.sent + rest.sent;
    }
  }

  /** What follows the response to the last of `sent`. */
  lemma AnswerCases(w: Site, auth: Auth, sent: seq<Request>, behind: seq<Exchange>, landed: Ending)
    requires sent != [] && w.server(|sent| - 1).Gives? && |behind| <= w.maxRedirects
    ensures var last, head, step := sent[|sent| - 1], w.server(|sent| - 1).head, auth.steps(|behind|);
            var all, verdict := After(sent, Answered(w, auth, last, |sent|, behind, landed)), Verdict(last, head, w.cap);
            if auth.requiresBody && !verdict.Kept? then all == Run(sent, Stopped(ReadFailed(verdict)))
            else if step.Stop? then all == Run(sent, landed)
            else if step.Throw? then all == Run(sent, Stopped(AuthFailed))
            else if !auth.requiresBody && !Discardable(last, head, w.cap) then all == Run(sent, Stopped(DiscardFailed))
            else all == After(sent, Drive(w, auth, step.request, |sent|, behind + [Exchange(last, head)]))
  {
    hide Drive, Verdict, Discardable;
  }

  /**
    `_send_capped`. On every exit the flow is closed, and so is every response but perhaps
    the one returned; its history, and each history in it, is the chain of responses before it.
   */
  method SendCapped(client: Client, flow: AuthFlow) returns (o: Outcome)
    requires client.NoneOpen() && flow.asked == 0 && !flow.closed
    modifies client, flow
    ensures flow.closed
    ensures fresh(client.responses - old(client.responses)) && old(client.responses) <= client.responses
    ensures Run(client.sent, EndingOf(o)) == After(old(client.sent), Session(client.site, flow.auth, |old(client.sent)|))
    ensures client.OpenAtMost(o)
    ensures o.Returned? ==> ReturnedAs(client, o.response, flow.auth.requiresBody) && fresh(o.response)
  {
    if flow.auth.first.None? {
      flow.Close();
      return Raised(AuthFailed);
    }
    o := Rounds(client, flow);
    flow.Close();
  }

  /** How one pass of the auth loop ends: the session is over, or `response` joins the history and `request` is next. */
  datatype Turn = Over(o: Outcome) | Again(request: Request, response: Response)

  method OneRound(client: Client, flow: AuthFlow, request: Request, history: seq<Response>) returns (turn: Turn)
    requires client.NoneOpen() && Chained(history) && flow.asked == |history| && !flow.closed
    modifies client, flow`asked
    ensures fresh(client.responses - old(client.responses)) && old(client.responses) <= client.responses
    ensures After(old(client.sent), Drive(client.site, flow.auth, request, |old(client.sent)|, Exchanges(history)))
         == if turn.Over? then Run(client.sent, EndingOf(turn.o))
            else After(client.sent, Drive(client.site, flow.auth, turn.request, |client.sent|,
                Exchanges(history + [turn.response])))
    ensures client.OpenAtMost(if turn.Over? then turn.o else Raised(SendFailed))
    ensures turn.Over? && turn.o.Returned? ==>
              ReturnedAs(client, turn.o.response, flow.auth.requiresBody) && fresh(turn.o.response)
    ensures turn.Again? ==> fresh(turn.response) && turn.response.history == history
    ensures turn.Again? ==> flow.asked == |history| + 1 && |history| <= client.site.maxRedirects
  {
    hide After, Drive, Follow, Answered, Verdict, Discardable;
    RoundCases(client.site, flow.auth, client.sent, request, Exchanges(history));
    var o := SendRedirectHops(client, request, history);
    if o.Raised? {
      return Over(o);
    }
    var response := o.response;
    AnswerCases(client.site, flow.auth, client.sent, Exchanges(history), EndingOf(o));
    if flow.auth.requiresBody {
      var r := ReadCappedAndClose(response, client.site.cap);
      if r.Err? {
        return Over(Raised(ReadFailed(r.error)));
      }
      response := r.response;
      client.responses := client.responses + {response};
    }
    var step := flow.Ask(response);
    match step {
      case Stop => return Over(Returned(response));
      case Throw =>
        response.Close();
        return Over(Raised(AuthFailed));
      case Ask(next) =>
        var ok := DiscardAndClose(response, client.site.cap);
        if !ok {
          return Over(Raised(DiscardFailed));
        }
        response.history := history;
        ExchangesNext(history, response);
        return Again(next, response);
    }
  }

  method Rounds(client: Client, flow: AuthFlow) returns (o: Outcome)
    requires client.NoneOpen() && flow.asked == 0 && !flow.closed && flow.auth.first.Some?
    modifies client, flow`asked
    ensures fresh(client.responses - old(client.responses)) && old(client.responses) <= client.responses
    ensures Run(client.sent, EndingOf(o))
         == After(old(client.sent), Drive(client.site, flow.auth, flow.auth.first.value, |old(client.sent)|, []))
    ensures client.OpenAtMost(o)
    ensures o.Returned? ==> ReturnedAs(client, o.response, flow.auth.requiresBody) && fresh(o.response)
  {
    hide After, Drive, ReturnedAs;
    var request, history := flow.auth.first.value, [];
    assert Exchanges(history) == [];
    ghost var whole := After(client.sent, Drive(client.site, flow.auth, request, |client.sent|, []));
    while true
      invariant fresh(client.responses - old(client.responses)) && old(client.responses) <= client.responses
      invariant client.NoneOpen() && Chained(history) && flow.asked == |history|
      invariant whole == After(client.sent, Drive(client.site, flow.auth, request, |client.sent|, Exchanges(history)))
      decreases client.site.maxRedirects + 1 - |history|
    {
      var turn := OneRound(client, flow, request, history);
      if turn.Over? {
        return turn.o;
      }
      history := history + [turn.response];
      request := turn.request;
    }
  }
}
