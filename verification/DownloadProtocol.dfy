/** One download as a protocol: the redirect loop, the byte limits, and the single answer to the caller.
  *
  * The work (`transfer` in download-transport.ts) and the caller's promise run side by side: an abort
  * answers the caller at once, while the work goes on until its pending step returns and its lease drains.
  */
module DownloadProtocol {
  import opened Options

  // --- State -------------------------------------------------------------------------------------

  /** `web`: http or https, with no credentials in the URL. */
  datatype Url = Url(href: string, web: bool, secure: bool)

  /** Where a response points: no location, one that does not parse, or a URL. */
  datatype Location = NoLocation | BadLocation | To(url: Url)

  datatype Response = Response(
    complete: bool, status: int, location: Location, declared: Option<int>, encodingKnown: bool)

  /** What happens once the lease has drained. */
  datatype After = Follow | Finish(ok: bool)

  datatype Work =
    | Connecting
    | Securing
    | AwaitingHeaders
    | CheckingResponse(response: Response)
    | CheckingRedirect
    | Streaming
    | CheckingSize(bytes: nat)
    | Draining(after: After)
    | Settled(ok: bool)

  /** The URLs connected to, the redirects announced, and how many of those the policy has passed. */
  datatype Route = Route(current: Url, dialled: seq<string>, redirects: seq<string>, passed: nat)

  datatype Body = Body(encoded: nat, decoded: nat, chunks: seq<nat>)

  datatype Caller = Waiting | Returned(size: nat) | Threw

  datatype Call = Call(
    maxBytes: nat, maxRedirects: nat,
    work: Work,
    route: Route,
    body: Body,
    leases: nat, drained: nat,
    aborted: bool,
    released: nat,
    caller: Caller, reports: seq<bool>)

  function Sum(chunks: seq<nat>): nat {
    if chunks == [] then 0 else Sum(chunks[..|chunks| - 1]) + chunks[|chunks| - 1]
  }

  // --- Building blocks ------------------------------------------------------------------------------

  /** The work settles; only then are both reservations given back. */
  function Settle(c: Call, ok: bool): Call {
    c.(work := Settled(ok), released := c.released + 1)
  }

  /** Close the lease and wait for it to drain. */
  function Close(c: Call, after: After): Call { c.(work := Draining(after)) }

  /** `active()`: a deadline found passed aborts too. */
  function Late(c: Call, late: bool): Call { c.(aborted := c.aborted || late) }

  /** The top of the loop. */
  function TopOfLoop(c: Call, late: bool): Call {
    var a := Late(c, late);
    if a.aborted || |c.route.dialled| > c.maxRedirects || c.route.current.href in c.route.dialled
       || !c.route.current.web
    then Settle(a, false)
    else a.(work := Connecting, route := c.route.(dialled := c.route.dialled + [c.route.current.href]))
  }

  /** A call whose reservations are held and whose URL parses, about to start. */
  function Admitted(maxBytes: nat, maxRedirects: nat, url: Url): Call {
    Call(maxBytes, maxRedirects, Settled(false), Route(url, [], [], 0), Body(0, 0, []), 0, 0, false, 0, Waiting, [])
  }

  /** The work's first synchronous stretch; `url` is none when it does not parse. */
  function Begin(maxBytes: nat, maxRedirects: nat, url: Option<Url>, aborted: bool, late: bool): Call {
    match url
    case None => Settle(Admitted(maxBytes, maxRedirects, Url("", false, false)).(aborted := aborted), false)
    case Some(u) => TopOfLoop(Admitted(maxBytes, maxRedirects, u).(aborted := aborted), late)
  }

  predicate IsRedirect(r: Response) { r.status in [301, 302, 303, 307, 308] && !r.location.NoLocation? }

  // --- What each event does to the work -----------------------------------------------------------------

  function ConnectReturns(c: Call, lease: bool, late: bool): Call {
    if !lease then Settle(c, false)
    else
      var a := Late(c, late).(leases := c.leases + 1);
      if a.aborted then Close(a, Finish(false))
      else a.(work := if c.route.current.secure then Securing else AwaitingHeaders)
  }

  function SecureReturns(c: Call, ok: bool, late: bool): Call {
    if !ok then Close(c, Finish(false))
    else
      var a := Late(c, late);
      if a.aborted then Close(a, Finish(false)) else a.(work := AwaitingHeaders)
  }

  function HeadersReturn(c: Call, response: Option<Response>): Call {
    if response.None? then Close(c, Finish(false)) else c.(work := CheckingResponse(response.value))
  }

  /** The response is announced as a redirect, refused, or its body begins. */
  function Proceed(c: Call, r: Response): Call {
    if !r.complete then Close(c, Finish(false))
    else if IsRedirect(r) then
      if r.location.BadLocation? then Close(c, Finish(false))
      else
        var next := r.location.url;
        c.(work := CheckingRedirect,
           route := c.route.(current := next, redirects := c.route.redirects + [next.href]))
    else if r.status < 200 || r.status >= 300 then Close(c, Finish(false))
    else if r.declared.Some? && r.declared.value > c.maxBytes then Close(c, Finish(false))
    else if !r.encodingKnown then Close(c, Finish(false))
    else c.(work := Streaming)
  }

  function ResponseChecked(c: Call, r: Response, allowed: bool, late: bool): Call {
    if !allowed then Close(c, Finish(false))
    else
      var a := Late(c, late);
      if a.aborted then Close(a, Finish(false)) else Proceed(a, r)
  }

  function RedirectChecked(c: Call, allowed: bool, late: bool): Call {
    if !allowed then Close(c, Finish(false))
    else
      var a := Late(c, late).(route := c.route.(passed := |c.route.redirects|));
      if a.aborted then Close(a, Finish(false)) else Close(a, Follow)
  }

  /** Bytes off the wire are counted as they come; too many abort everything. */
  function RawBytes(c: Call, n: nat): Call {
    var encoded := c.body.encoded + n;
    c.(body := c.body.(encoded := encoded), aborted := c.aborted || encoded > c.maxBytes)
  }

  /** A decoded chunk is counted, and the policy asked about the size so far. */
  function ChunkArrives(c: Call, n: nat, late: bool): Call {
    var a := Late(c, late);
    if a.aborted then Close(a, Finish(false))
    else
      var counted := a.(body := c.body.(decoded := c.body.decoded + n));
      if counted.body.decoded > c.maxBytes then Close(counted, Finish(false))
      else counted.(work := CheckingSize(n))
  }

  function SizeChecked(c: Call, n: nat, allowed: bool, late: bool): Call {
    if !allowed then Close(c, Finish(false))
    else
      var a := Late(c, late);
      if a.aborted then Close(a, Finish(false))
      else a.(work := Streaming, body := c.body.(chunks := c.body.chunks + [n]))
  }

  function StreamEnds(c: Call, ok: bool, late: bool): Call {
    if !ok then Close(c, Finish(false))
    else
      var a := Late(c, late);
      Close(a, Finish(!a.aborted))
  }

  function LeaseDrains(c: Call, after: After, late: bool): Call {
    var gone := c.(drained := c.drained + 1);
    match after
    case Follow => TopOfLoop(gone, late)
    case Finish(ok) => Settle(gone, ok)
  }

  // --- The caller ------------------------------------------------------------------------------------------

  /** The race between the work and the abort is over, and the one report is made. */
  function CallerResumes(c: Call, late: bool): Call {
    var a := if c.work.Settled? && c.work.ok then Late(c, late) else c;
    if a.aborted || c.work != Settled(true) then a.(caller := Threw, reports := c.reports + [false])
    else a.(caller := Returned(Sum(c.body.chunks)), reports := c.reports + [true])
  }

  // --- Events ------------------------------------------------------------------------------------------------

  datatype Event =
    | Abort
    | OnConnect(lease: bool, late: bool)
    | OnSecure(ok: bool, late: bool)
    | OnHeaders(response: Option<Response>)
    | OnResponseChecked(allowed: bool, late: bool)
    | OnRedirectChecked(allowed: bool, late: bool)
    | OnRawBytes(n: nat)
    | OnChunk(n: nat, late: bool)
    | OnSizeChecked(allowed: bool, late: bool)
    | OnStreamEnd(ok: bool, late: bool)
    | OnDrained(late: bool)
    | OnCaller(late: bool)

  /** Whether the event can happen now: the work waits for it, or it concerns the other party. */
  predicate Enabled(c: Call, e: Event) {
    match e
    case Abort => c.caller.Waiting?
    case OnConnect(_, _) => c.work.Connecting?
    case OnSecure(_, _) => c.work.Securing?
    case OnHeaders(_) => c.work.AwaitingHeaders?
    case OnResponseChecked(_, _) => c.work.CheckingResponse?
    case OnRedirectChecked(_, _) => c.work.CheckingRedirect?
    case OnRawBytes(_) => c.work.Streaming? || c.work.CheckingSize?
    case OnChunk(_, _) => c.work.Streaming?
    case OnSizeChecked(_, _) => c.work.CheckingSize?
    case OnStreamEnd(_, _) => c.work.Streaming?
    case OnDrained(_) => c.work.Draining?
    case OnCaller(_) => c.caller.Waiting? && (c.aborted || c.work.Settled?)
  }

  function Handle(c: Call, e: Event): Call
    requires Enabled(c, e)
  {
    match e
    case Abort => c.(aborted := true)
    case OnConnect(lease, late) => ConnectReturns(c, lease, late)
    case OnSecure(ok, late) => SecureReturns(c, ok, late)
    case OnHeaders(response) => HeadersReturn(c, response)
    case OnResponseChecked(allowed, late) => ResponseChecked(c, c.work.response, allowed, late)
    case OnRedirectChecked(allowed, late) => RedirectChecked(c, allowed, late)
    case OnRawBytes(n) => RawBytes(c, n)
    case OnChunk(n, late) => ChunkArrives(c, n, late)
    case OnSizeChecked(allowed, late) => SizeChecked(c, c.work.bytes, allowed, late)
    case OnStreamEnd(ok, late) => StreamEnds(c, ok, late)
    case OnDrained(late) => LeaseDrains(c, c.work.after, late)
    case OnCaller(late) => CallerResumes(c, late)
  }

  function Next(c: Call, e: Event): Call {
    if Enabled(c, e) then Handle(c, e) else c
  }

  function Run(c: Call, events: seq<Event>): Call
    decreases |events|
  {
    if events == [] then c else Run(Next(c, events[0]), events[1..])
  }

  // --- What every step keeps -----------------------------------------------------------------------------------

  predicate NoRepeats(urls: seq<string>) {
    forall i, j :: 0 <= i < j < |urls| ==> urls[i] != urls[j]
  }

  /** Few URLs, no URL twice, and every one after the first announced to and passed by the policy. */
  predicate RouteHolds(r: Route, work: Work, maxRedirects: nat) {
    && NoRepeats(r.dialled)
    && |r.dialled| <= maxRedirects + 1
    && r.passed <= |r.redirects|
    && (work.Settled? || r.dialled != [])
    && (if work.CheckingRedirect? then Announced(r) && r.passed == |r.redirects| - 1
        else if work == Draining(Follow) then Announced(r) && r.passed == |r.redirects|
        else work.Settled? || work.Draining? || (r.redirects == r.dialled[1..] && r.passed == |r.redirects|))
    && |r.dialled| <= r.passed + 1
    && (forall i :: 1 <= i < |r.dialled| ==> r.dialled[i] == r.redirects[i - 1])
  }

  /** The current URL has been announced after those connected to. */
  predicate Announced(r: Route) {
    r.dialled != [] && r.redirects == r.dialled[1..] + [r.current.href]
  }

  predicate HoldsLease(work: Work) { !work.Connecting? && !work.Settled? }

  predicate Failing(work: Work) { work == Draining(Finish(false)) || work == Settled(false) }

  function Pending(work: Work): nat { if work.CheckingSize? then work.bytes else 0 }

  /** The body is counted, within its limit, and a chunk is kept only after the policy saw its size. */
  predicate BodyHolds(b: Body, work: Work, aborted: bool, maxBytes: nat) {
    && (b.encoded > maxBytes ==> aborted)
    && (!Failing(work) ==> b.decoded == Sum(b.chunks) + Pending(work) && b.decoded <= maxBytes)
  }

  /** One answer, one report, and they agree; a success is an unaborted success of the work. */
  predicate CallerHolds(c: Call) {
    match c.caller
    case Waiting => c.reports == []
    case Threw => c.reports == [false] && (c.aborted || c.work == Settled(false))
    case Returned(size) =>
      c.reports == [true] && c.work == Settled(true) && !c.aborted && size == Sum(c.body.chunks)
  }

  predicate Inv(c: Call) {
    && RouteHolds(c.route, c.work, c.maxRedirects)
    && BodyHolds(c.body, c.work, c.aborted, c.maxBytes)
    && CountsHold(c)
    && CallerHolds(c)
  }

  lemma BeginKeepsInv(maxBytes: nat, maxRedirects: nat, url: Option<Url>, aborted: bool, late: bool)
    ensures Inv(Begin(maxBytes, maxRedirects, url, aborted, late))
  {
    var u := if url.Some? then url.value else Url("", false, false);
    var c := Admitted(maxBytes, maxRedirects, u).(aborted := aborted);
    assert Sum(c.body.chunks) == 0;
    if url.Some? { FirstTopOfLoop(c, late); }
  }

  /** The first pass over the top of the loop. */
  lemma FirstTopOfLoop(c: Call, late: bool)
    requires c.route == Route(c.route.current, [], [], 0) && c.body == Body(0, 0, [])
    requires c.leases == c.drained == 0 && c.released == 0 && c.caller == Waiting && c.reports == []
    ensures Inv(TopOfLoop(c, late))
  {
    var d := TopOfLoop(c, late);
    assert Sum(d.body.chunks) == 0;
    assert d.work.Connecting? ==> d.route.dialled == [c.route.current.href];
    assert RouteHolds(d.route, d.work, d.maxRedirects);
  }

  /** Connecting to an announced and passed URL that was not connected to before. */
  lemma DialKeepsRoute(r: Route, maxRedirects: nat)
    requires RouteHolds(r, Draining(Follow), maxRedirects)
    requires |r.dialled| <= maxRedirects && r.current.href !in r.dialled
    ensures RouteHolds(r.(dialled := r.dialled + [r.current.href]), Connecting, maxRedirects)
  {
    var more := r.dialled + [r.current.href];
    assert more[1..] == r.dialled[1..] + [r.current.href];
    assert forall i :: 0 <= i < |r.dialled| ==> more[i] == r.dialled[i] && more[i] in r.dialled;
  }

  /** A new announcement follows those already connected to. */
  lemma AnnounceKeepsRoute(r: Route, next: Url, work: Work, maxRedirects: nat)
    requires RouteHolds(r, work, maxRedirects) && work.CheckingResponse?
    ensures RouteHolds(r.(current := next, redirects := r.redirects + [next.href]), CheckingRedirect, maxRedirects)
  {
  }

  lemma NextKeepsRoute(c: Call, e: Event)
    requires RouteHolds(c.route, c.work, c.maxRedirects)
    ensures var d := Next(c, e); RouteHolds(d.route, d.work, d.maxRedirects)
  {
    if Enabled(c, e) {
      match e {
        case OnDrained(late) => DrainKeepsRoute(c, late);
        case OnResponseChecked(allowed, late) => ResponseKeepsRoute(c, allowed, late);
        case OnRedirectChecked(allowed, late) => RedirectKeepsRoute(c, allowed, late);
        case _ => OtherKeepsRoute(c, e);
      }
    }
  }

  lemma DrainKeepsRoute(c: Call, late: bool)
    requires RouteHolds(c.route, c.work, c.maxRedirects) && c.work.Draining?
    ensures var d := LeaseDrains(c, c.work.after, late); RouteHolds(d.route, d.work, d.maxRedirects)
  {
    var r := c.route;
    if c.work.after.Follow? && |r.dialled| <= c.maxRedirects && r.current.href !in r.dialled {
      DialKeepsRoute(r, c.maxRedirects);
    }
  }

  lemma ResponseKeepsRoute(c: Call, allowed: bool, late: bool)
    requires RouteHolds(c.route, c.work, c.maxRedirects) && c.work.CheckingResponse?
    ensures var d := ResponseChecked(c, c.work.response, allowed, late); RouteHolds(d.route, d.work, d.maxRedirects)
  {
    if c.work.response.location.To? {
      AnnounceKeepsRoute(c.route, c.work.response.location.url, c.work, c.maxRedirects);
    }
  }

  lemma RedirectKeepsRoute(c: Call, allowed: bool, late: bool)
    requires RouteHolds(c.route, c.work, c.maxRedirects) && c.work.CheckingRedirect?
    ensures var d := RedirectChecked(c, allowed, late); RouteHolds(d.route, d.work, d.maxRedirects)
  {
  }

  lemma OtherKeepsRoute(c: Call, e: Event)
    requires RouteHolds(c.route, c.work, c.maxRedirects) && Enabled(c, e)
    requires !e.OnDrained? && !e.OnResponseChecked? && !e.OnRedirectChecked?
    ensures var d := Next(c, e); d.route == c.route && RouteHolds(d.route, d.work, d.maxRedirects)
  {
  }

  lemma SumAppend(chunks: seq<nat>, n: nat)
    ensures Sum(chunks + [n]) == Sum(chunks) + n
  {
    assert (chunks + [n])[..|chunks|] == chunks;
  }

  lemma NextKeepsBody(c: Call, e: Event)
    requires BodyHolds(c.body, c.work, c.aborted, c.maxBytes)
    ensures var d := Next(c, e); BodyHolds(d.body, d.work, d.aborted, d.maxBytes)
  {
    if e.OnSizeChecked? && c.work.CheckingSize? { SumAppend(c.body.chunks, c.work.bytes); }
  }

  lemma NextKeepsCaller(c: Call, e: Event)
    requires Inv(c)
    ensures CallerHolds(Next(c, e))
  {
  }

  predicate CountsHold(c: Call) {
    c.leases == c.drained + (if HoldsLease(c.work) then 1 else 0) && c.released == (if c.work.Settled? then 1 else 0)
  }

  lemma NextKeepsCounts(c: Call, e: Event)
    requires CountsHold(c)
    ensures CountsHold(Next(c, e))
  {
    if Enabled(c, e) {
      match e {
        case OnDrained(late) => assert CountsHold(LeaseDrains(c, c.work.after, late));
        case OnResponseChecked(allowed, late) => assert CountsHold(ResponseChecked(c, c.work.response, allowed, late));
        case _ =>
      }
    }
  }

  lemma NextKeepsInv(c: Call, e: Event)
    requires Inv(c)
    ensures Inv(Next(c, e))
  {
    NextKeepsRoute(c, e);
    NextKeepsBody(c, e);
    NextKeepsCaller(c, e);
    NextKeepsCounts(c, e);
  }

  lemma {:induction false} RunKeepsInv(c: Call, events: seq<Event>)
    requires Inv(c)
    ensures Inv(Run(c, events))
    decreases |events|
  {
    if events != [] {
      NextKeepsInv(c, events[0]);
      RunKeepsInv(Next(c, events[0]), events[1..]);
    }
  }

  // --- What a download promises ----------------------------------------------------------------------------------

  /** Few URLs, none twice, and each redirect target announced to and passed by the policy first. */
  predicate RouteIsBounded(r: Route, maxRedirects: nat) {
    && NoRepeats(r.dialled) && |r.dialled| <= maxRedirects + 1
    && r.passed <= |r.redirects| && |r.dialled| <= r.passed + 1
    && forall i :: 1 <= i < |r.dialled| ==> r.dialled[i] == r.redirects[i - 1]
  }

  /** No lease is open while the next hop connects; both reservations are given back once, at the end. */
  predicate CountsAreBounded(c: Call) {
    && c.drained <= c.leases <= c.drained + 1
    && (c.work.Connecting? ==> c.leases == c.drained)
    && c.released == (if c.work.Settled? then 1 else 0)
  }

  /** One report, saying what the caller got; a success is at most `maxBytes`, on the wire and decoded. */
  predicate AnswerIsBounded(c: Call) {
    && |c.reports| == (if c.caller.Waiting? then 0 else 1)
    && (true in c.reports <==> c.caller.Returned?)
    && (c.caller.Returned? ==>
      && c.caller.size == Sum(c.body.chunks) <= c.maxBytes
      && c.body.encoded <= c.maxBytes
      && c.work == Settled(true))
  }

  /** For every behaviour of the network, the policy and the clock. */
  lemma EveryRunIsBounded(
    maxBytes: nat, maxRedirects: nat, url: Option<Url>, aborted: bool, late: bool, events: seq<Event>)
    ensures var c := Run(Begin(maxBytes, maxRedirects, url, aborted, late), events);
      && c.maxBytes == maxBytes && c.maxRedirects == maxRedirects
      && RouteIsBounded(c.route, maxRedirects) && CountsAreBounded(c) && AnswerIsBounded(c)
  {
    var c := Begin(maxBytes, maxRedirects, url, aborted, late);
    BeginKeepsInv(maxBytes, maxRedirects, url, aborted, late);
    RunKeepsInv(c, events);
    LimitsStay(c, events);
    InvIsBounded(Run(c, events));
  }

  lemma InvIsBounded(c: Call)
    requires Inv(c)
    ensures RouteIsBounded(c.route, c.maxRedirects) && CountsAreBounded(c) && AnswerIsBounded(c)
  {
    RouteStaysBounded(c.route, c.work, c.maxRedirects);
    AnswerStaysBounded(c);
  }

  lemma RouteStaysBounded(r: Route, work: Work, maxRedirects: nat)
    requires RouteHolds(r, work, maxRedirects)
    ensures RouteIsBounded(r, maxRedirects)
  {
  }

  lemma AnswerStaysBounded(c: Call)
    requires BodyHolds(c.body, c.work, c.aborted, c.maxBytes) && CallerHolds(c)
    ensures AnswerIsBounded(c)
  {
    match c.caller
    case Waiting =>
    case Threw => assert c.reports[0] == false;
    case Returned(_) => assert c.reports[0] == true;
  }

  lemma {:induction false} LimitsStay(c: Call, events: seq<Event>)
    ensures Run(c, events).maxBytes == c.maxBytes && Run(c, events).maxRedirects == c.maxRedirects
    decreases |events|
  {
    if events != [] {
      LimitsStayOnce(c, events[0]);
      LimitsStay(Next(c, events[0]), events[1..]);
    }
  }

  lemma LimitsStayOnce(c: Call, e: Event)
    ensures Next(c, e).maxBytes == c.maxBytes && Next(c, e).maxRedirects == c.maxRedirects
  {
  }

  /** What an abort and an answer make final. */
  predicate Final(c: Call, d: Call) {
    && (c.aborted ==> d.aborted && d.route.dialled == c.route.dialled)
    && (!c.caller.Waiting? ==> d.caller == c.caller && d.reports == c.reports)
    && (c.work.Settled? ==> d.work == c.work && d.released == c.released)
  }

  lemma NextIsFinal(c: Call, e: Event)
    ensures Final(c, Next(c, e))
  {
  }

  /** Once aborted nothing more is contacted, once answered the answer stays, once settled all is quiet. */
  lemma {:induction false} RunIsFinal(c: Call, events: seq<Event>)
    ensures Final(c, Run(c, events))
    decreases |events|
  {
    if events != [] {
      NextIsFinal(c, events[0]);
      RunIsFinal(Next(c, events[0]), events[1..]);
    }
  }

  /** The same work: all but the abort, once settled, and what the caller was told. */
  predicate SameWork(c: Call, d: Call) {
    && c.(aborted := false, caller := Waiting, reports := []) == d.(aborted := false, caller := Waiting, reports := [])
    && (c.aborted == d.aborted || c.work.Settled?)
    && d.caller.Waiting? && d.reports == []
  }

  function WithoutAnswers(events: seq<Event>): seq<Event> {
    if events == [] then []
    else if events[0].OnCaller? then WithoutAnswers(events[1..])
    else [events[0]] + WithoutAnswers(events[1..])
  }

  lemma AnswerIsInvisible(c: Call, d: Call, late: bool)
    requires Inv(c) && SameWork(c, d)
    ensures SameWork(Next(c, OnCaller(late)), d)
  {
  }

  function Unanswered(c: Call): Call { c.(caller := Waiting, reports := []) }

  /** No step of the work looks at what the caller was told. */
  lemma WorkIgnoresCaller(c: Call, e: Event)
    requires !e.OnCaller? && !e.Abort?
    ensures Next(Unanswered(c), e) == Unanswered(Next(c, e))
  {
    if Enabled(c, e) {
      match e {
        case OnResponseChecked(allowed, late) => ResponseIgnoresCaller(c, c.work.response, allowed, late);
        case OnDrained(late) => DrainIgnoresCaller(c, c.work.after, late);
        case _ =>
      }
    }
  }

  lemma ResponseIgnoresCaller(c: Call, r: Response, allowed: bool, late: bool)
    ensures ResponseChecked(Unanswered(c), r, allowed, late) == Unanswered(ResponseChecked(c, r, allowed, late))
  {
  }

  lemma DrainIgnoresCaller(c: Call, after: After, late: bool)
    ensures LeaseDrains(Unanswered(c), after, late) == Unanswered(LeaseDrains(c, after, late))
  {
  }

  lemma AbortIsAlike(c: Call, d: Call)
    requires Inv(c) && SameWork(c, d)
    ensures SameWork(Next(c, Abort), Next(d, Abort))
  {
  }

  lemma OthersAreAlike(c: Call, d: Call, e: Event)
    requires Inv(c) && SameWork(c, d) && !e.OnCaller?
    ensures SameWork(Next(c, e), Next(d, e))
  {
    if e.Abort? {
      AbortIsAlike(c, d);
    } else if c.work.Settled? {
      assert Next(c, e) == c && Next(d, e) == d;
    } else {
      assert d == Unanswered(c);
      WorkIgnoresCaller(c, e);
    }
  }

  /** When the caller is answered makes no difference to the work: over any run the work, its leases and
    * its places are those of the run in which the caller is never answered. */
  lemma {:induction false} AnswersLeaveTheWorkAlone(c: Call, d: Call, events: seq<Event>)
    requires Inv(c) && SameWork(c, d)
    ensures SameWork(Run(c, events), Run(d, WithoutAnswers(events)))
    decreases |events|
  {
    if events != [] {
      var e, rest := events[0], events[1..];
      NextKeepsInv(c, e);
      if e.OnCaller? {
        AnswerIsInvisible(c, d, e.late);
        AnswersLeaveTheWorkAlone(Next(c, e), d, rest);
      } else {
        OthersAreAlike(c, d, e);
        AnswersLeaveTheWorkAlone(Next(c, e), Next(d, e), rest);
        assert ([e] + WithoutAnswers(rest))[1..] == WithoutAnswers(rest);
      }
    }
  }

  // --- Draining ---------------------------------------------------------------------------------------------------

  predicate WorkEvent(e: Event) { !e.Abort? && !e.OnCaller? && !e.OnRawBytes? }

  /** How many more steps the work of an aborted download can take. */
  function StepsLeft(work: Work): nat {
    match work
    case Settled(_) => 0
    case Draining(_) => 1
    case AwaitingHeaders => 3
    case _ => 2
  }

  function WorkSteps(c: Call, events: seq<Event>): nat
    decreases |events|
  {
    if events == [] then 0
    else
      (if Enabled(c, events[0]) && WorkEvent(events[0]) then 1 else 0) + WorkSteps(Next(c, events[0]), events[1..])
  }

  lemma AbortedStepCounts(c: Call, e: Event)
    requires c.aborted
    ensures StepsLeft(Next(c, e).work) <= StepsLeft(c.work) - (if Enabled(c, e) && WorkEvent(e) then 1 else 0)
  {
  }

  /** Aborted work settles within three steps of its own, each an answer it is owed already. */
  lemma {:induction false} AbortedWorkSettles(c: Call, events: seq<Event>)
    requires c.aborted
    ensures WorkSteps(c, events) + StepsLeft(Run(c, events).work) <= StepsLeft(c.work) <= 3
    decreases |events|
  {
    if events != [] {
      AbortedStepCounts(c, events[0]);
      NextIsFinal(c, events[0]);
      AbortedWorkSettles(Next(c, events[0]), events[1..]);
    }
  }

  /** Work that has not settled is always owed an answer. */
  lemma WorkIsNeverStuck(c: Call) returns (e: Event)
    requires !c.work.Settled?
    ensures WorkEvent(e) && Enabled(c, e)
  {
    match c.work
    case Connecting => e := OnConnect(false, false);
    case Securing => e := OnSecure(false, false);
    case AwaitingHeaders => e := OnHeaders(None);
    case CheckingResponse(_) => e := OnResponseChecked(false, false);
    case CheckingRedirect => e := OnRedirectChecked(false, false);
    case Streaming => e := OnStreamEnd(false, false);
    case CheckingSize(_) => e := OnSizeChecked(false, false);
    case Draining(_) => e := OnDrained(false);
  }
}
