/** The download transport in its own form: a transport admits calls against two budgets, and a call
  * updates its own fields step by step (download-transport.ts).
  */
module DownloadTransport {
  import opened Options
  import DP = DownloadProtocol
  import TO = TransferOwnership
  import CA = ConnectionAuthority

  /** One admitted call.  Its two reservations are the only places it holds. */
  class Transfer {
    const maxBytes: nat
    const maxRedirects: nat
    const local: CA.Reservation
    const shared: CA.Reservation
    var work: DP.Work
    var route: DP.Route
    var body: DP.Body
    var leases: nat
    var drained: nat
    var aborted: bool
    var released: nat
    var caller: DP.Caller
    var reports: seq<bool>

    ghost function View(): DP.Call
      reads this
    {
      DP.Call(maxBytes, maxRedirects, work, route, body, leases, drained, aborted, released, caller, reports)
    }

    /** Its reservations are held exactly until the work settles. */
    ghost predicate Valid()
      reads this, local, shared
    {
      && local != shared && local.scope == null && shared.scope == null
      && local.budget != shared.budget
      && local.released == shared.released == work.Settled?
    }

    constructor (maxBytes: nat, maxRedirects: nat, local: CA.Reservation, shared: CA.Reservation)
      requires local != shared && local.budget != shared.budget && local.scope == null && shared.scope == null
      ensures this.maxBytes == maxBytes && this.maxRedirects == maxRedirects
      ensures this.local == local && this.shared == shared
      ensures View() == DP.Admitted(maxBytes, maxRedirects, DP.Url("", false, false))
    {
      this.maxBytes, this.maxRedirects := maxBytes, maxRedirects;
      this.local, this.shared := local, shared;
      work, route, body := DP.Settled(false), DP.Route(DP.Url("", false, false), [], [], 0), DP.Body(0, 0, []);
      leases, drained, aborted, released, caller, reports := 0, 0, false, 0, DP.Waiting, [];
    }

    /** Places still held in a budget by this call: what settling gives back. */
    ghost predicate Repays(was: DP.Work, localCount: int, sharedCount: int)
      reads this, local.budget, shared.budget
    {
      var back := if work.Settled? && !was.Settled? then 1 else 0;
      local.budget.count == localCount - back && shared.budget.count == sharedCount - back
    }

    method Settle(ok: bool)
      requires local != shared && local.scope == null && shared.scope == null && local.budget != shared.budget
      requires !local.released && !shared.released
      modifies `work, `released, local`released, shared`released, local.budget`count, shared.budget`count
      ensures View() == DP.Settle(old(View()), ok) && Valid()
      ensures local.budget.count == old(local.budget.count) - 1
      ensures shared.budget.count == old(shared.budget.count) - 1
    {
      work := DP.Settled(ok);
      released := released + 1;
      local.Release();
      shared.Release();
    }

    method Close(after: DP.After)
      requires Valid() && !work.Settled?
      modifies `work
      ensures View() == DP.Close(old(View()), after) && Valid()
    {
      work := DP.Draining(after);
    }

    /** `active()`, with what the deadline check found. */
    method CheckActive(late: bool) returns (ok: bool)
      modifies `aborted
      ensures View() == DP.Late(old(View()), late) && ok == !aborted
    {
      if late { aborted := true; }
      ok := !aborted;
    }

    method TopOfLoop(late: bool)
      requires local != shared && local.scope == null && shared.scope == null && local.budget != shared.budget
      requires !local.released && !shared.released
      modifies this, local, shared, local.budget`count, shared.budget`count
      ensures View() == DP.TopOfLoop(old(View()), late) && Valid()
      ensures local.budget.count == old(local.budget.count) - (if work.Settled? then 1 else 0)
      ensures shared.budget.count == old(shared.budget.count) - (if work.Settled? then 1 else 0)
    {
      var active := CheckActive(late);
      if !active {
        Settle(false);
      } else if |route.dialled| > maxRedirects || route.current.href in route.dialled {
        Settle(false);
      } else if !route.current.web {
        Settle(false);
      } else {
        work := DP.Connecting;
        route := route.(dialled := route.dialled + [route.current.href]);
      }
    }

    method Begin(url: Option<DP.Url>, late: bool)
      requires View() == DP.Admitted(maxBytes, maxRedirects, DP.Url("", false, false))
      requires local != shared && local.scope == null && shared.scope == null && local.budget != shared.budget
      requires !local.released && !shared.released
      modifies this, local, shared, local.budget`count, shared.budget`count
      ensures View() == DP.Begin(maxBytes, maxRedirects, url, false, late) && Valid()
      ensures local.budget.count == old(local.budget.count) - (if work.Settled? then 1 else 0)
      ensures shared.budget.count == old(shared.budget.count) - (if work.Settled? then 1 else 0)
    {
      if url.None? { Settle(false); return; }
      route := route.(current := url.value);
      TopOfLoop(late);
    }

    method ConnectReturns(lease: bool, late: bool)
      requires Valid() && work.Connecting?
      modifies this, local, shared, local.budget`count, shared.budget`count
      ensures View() == DP.ConnectReturns(old(View()), lease, late) && Valid()
      ensures Repays(old(work), old(local.budget.count), old(shared.budget.count))
    {
      if !lease { Settle(false); return; }
      leases := leases + 1;
      var active := CheckActive(late);
      if !active { Close(DP.Finish(false)); return; }
      work := if route.current.secure then DP.Securing else DP.AwaitingHeaders;
    }

    method SecureReturns(ok: bool, late: bool)
      requires Valid() && work.Securing?
      modifies this
      ensures View() == DP.SecureReturns(old(View()), ok, late) && Valid() && !work.Settled?
    {
      if !ok { Close(DP.Finish(false)); return; }
      var active := CheckActive(late);
      if active { work := DP.AwaitingHeaders; } else { Close(DP.Finish(false)); }
    }

    method HeadersReturn(response: Option<DP.Response>)
      requires Valid() && work.AwaitingHeaders?
      modifies this
      ensures View() == DP.HeadersReturn(old(View()), response) && Valid() && !work.Settled?
    {
      if response.None? { Close(DP.Finish(false)); } else { work := DP.CheckingResponse(response.value); }
    }

    method ResponseChecked(allowed: bool, late: bool)
      requires Valid() && work.CheckingResponse?
      modifies this
      ensures View() == DP.ResponseChecked(old(View()), old(work).response, allowed, late) && Valid() && !work.Settled?
    {
      var r := work.response;
      if !allowed { Close(DP.Finish(false)); return; }
      var active := CheckActive(late);
      if !active || !r.complete { Close(DP.Finish(false)); return; }
      if DP.IsRedirect(r) {
        if r.location.BadLocation? { Close(DP.Finish(false)); return; }
        route := route.(current := r.location.url, redirects := route.redirects + [r.location.url.href]);
        work := DP.CheckingRedirect;
        return;
      }
      if r.status < 200 || r.status >= 300 { Close(DP.Finish(false)); return; }
      if r.declared.Some? && r.declared.value > maxBytes { Close(DP.Finish(false)); return; }
      if r.encodingKnown { work := DP.Streaming; } else { Close(DP.Finish(false)); }
    }

    method RedirectChecked(allowed: bool, late: bool)
      requires Valid() && work.CheckingRedirect?
      modifies this
      ensures View() == DP.RedirectChecked(old(View()), allowed, late) && Valid() && !work.Settled?
    {
      if !allowed { Close(DP.Finish(false)); return; }
      route := route.(passed := |route.redirects|);
      var active := CheckActive(late);
      Close(if active then DP.Follow else DP.Finish(false));
    }

    method RawBytes(n: nat)
      requires Valid()
      modifies `body, `aborted
      ensures View() == DP.RawBytes(old(View()), n) && Valid()
    {
      body := body.(encoded := body.encoded + n);
      if body.encoded > maxBytes { aborted := true; }
    }

    method ChunkArrives(n: nat, late: bool)
      requires Valid() && work.Streaming?
      modifies this
      ensures View() == DP.ChunkArrives(old(View()), n, late) && Valid() && !work.Settled?
    {
      var active := CheckActive(late);
      if !active { Close(DP.Finish(false)); return; }
      body := body.(decoded := body.decoded + n);
      if body.decoded > maxBytes { Close(DP.Finish(false)); return; }
      work := DP.CheckingSize(n);
    }

    method SizeChecked(allowed: bool, late: bool)
      requires Valid() && work.CheckingSize?
      modifies this
      ensures View() == DP.SizeChecked(old(View()), old(work).bytes, allowed, late) && Valid() && !work.Settled?
    {
      if !allowed { Close(DP.Finish(false)); return; }
      var active := CheckActive(late);
      if !active { Close(DP.Finish(false)); return; }
      body := body.(chunks := body.chunks + [work.bytes]);
      work := DP.Streaming;
    }

    method StreamEnds(ok: bool, late: bool)
      requires Valid() && work.Streaming?
      modifies this
      ensures View() == DP.StreamEnds(old(View()), ok, late) && Valid() && !work.Settled?
    {
      if !ok { Close(DP.Finish(false)); return; }
      var active := CheckActive(late);
      Close(DP.Finish(active));
    }

    method LeaseDrains(late: bool)
      requires Valid() && work.Draining?
      modifies this, local, shared, local.budget`count, shared.budget`count
      ensures View() == DP.LeaseDrains(old(View()), old(work).after, late) && Valid()
      ensures Repays(old(work), old(local.budget.count), old(shared.budget.count))
    {
      drained := drained + 1;
      match work.after
      case Follow => TopOfLoop(late);
      case Finish(ok) => Settle(ok);
    }

    /** The caller's `await` resumes: the one place a call reports, and nothing is given back here. */
    method CallerResumes(late: bool)
      requires Valid() && caller.Waiting? && (aborted || work.Settled?)
      modifies `aborted, `caller, `reports
      ensures View() == DP.CallerResumes(old(View()), late) && Valid()
    {
      if work == DP.Settled(true) {
        var active := CheckActive(late);
        if active {
          caller := DP.Returned(DP.Sum(body.chunks));
          reports := reports + [true];
          return;
        }
      }
      caller := DP.Threw;
      reports := reports + [false];
    }

    /** Any event, as it comes; exactly the places of settled work are given back. */
    method Handle(e: DP.Event)
      requires Valid() && DP.Enabled(View(), e)
      modifies this, local, shared, local.budget`count, shared.budget`count
      ensures View() == DP.Next(old(View()), e) && Valid()
      ensures Repays(old(work), old(local.budget.count), old(shared.budget.count))
    {
      match e
      case Abort => aborted := true;
      case OnConnect(lease, late) => ConnectReturns(lease, late);
      case OnSecure(ok, late) => SecureReturns(ok, late);
      case OnHeaders(response) => HeadersReturn(response);
      case OnResponseChecked(allowed, late) => ResponseChecked(allowed, late);
      case OnRedirectChecked(allowed, late) => RedirectChecked(allowed, late);
      case OnRawBytes(n) => RawBytes(n);
      case OnChunk(n, late) => ChunkArrives(n, late);
      case OnSizeChecked(allowed, late) => SizeChecked(allowed, late);
      case OnStreamEnd(ok, late) => StreamEnds(ok, late);
      case OnDrained(late) => LeaseDrains(late);
      case OnCaller(late) => CallerResumes(late);
    }
  }

  /** One session generation's transport. */
  class Transport {
    const local: CA.ConnectionBudget
    const shared: CA.ConnectionBudget
    var cancelled: bool

    constructor (maxConnections: nat, shared: CA.ConnectionBudget)
      requires 1 <= maxConnections
      ensures fresh(local) && local.limit == maxConnections && local.count == 0
      ensures this.shared == shared && !cancelled
    {
      local := new CA.ConnectionBudget(maxConnections);
      this.shared := shared;
      cancelled := false;
    }

    /** Check, reserve locally, reserve the shared place, start; a refusal leaves both budgets as they were. */
    method Download(ask: TO.Ask) returns (denial: Option<TO.Denial>, transfer: Transfer?)
      requires local != shared
      modifies local`count, shared`count
      ensures denial ==
        if !TO.LimitsFit(ask) then Some(TO.InvalidLimits)
        else if cancelled then Some(TO.Cancelled)
        else if ask.aborted then Some(TO.CallerAborted)
        else if old(local.count) >= local.limit then Some(TO.NoLocalPlace)
        else if old(shared.count) >= shared.limit then Some(TO.NoSharedPlace)
        else None
      ensures transfer == null <==> denial.Some?
      ensures transfer == null ==> local.count == old(local.count) && shared.count == old(shared.count)
      ensures transfer != null ==>
        && fresh(transfer) && transfer.Valid()
        && transfer.local.budget == local && transfer.shared.budget == shared
        && transfer.View() == DP.Begin(ask.maxBytes.value, ask.maxRedirects.value, ask.url, false, ask.late)
        && local.count == old(local.count) + (if transfer.work.Settled? then 0 else 1)
        && shared.count == old(shared.count) + (if transfer.work.Settled? then 0 else 1)
    {
      if !TO.LimitsFit(ask) { return Some(TO.InvalidLimits), null; }
      if cancelled { return Some(TO.Cancelled), null; }
      if ask.aborted { return Some(TO.CallerAborted), null; }
      var localDenial, release := local.Reserve();
      if localDenial.Some? { return Some(TO.NoLocalPlace), null; }
      var sharedDenial, releaseShared := shared.Reserve();
      if sharedDenial.Some? {
        release.Release();
        return Some(TO.NoSharedPlace), null;
      }
      denial := None;
      transfer := new Transfer(ask.maxBytes.value, ask.maxRedirects.value, release, releaseShared);
      transfer.Begin(ask.url, ask.late);
    }
  }
}
