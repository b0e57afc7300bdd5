/** Every download of one service runtime: the shared transfer budget, and each transport's own.
  *
  * A transport's own budget is a scope of the ledger below; a download holds one place in each.
  */
module TransferOwnership {
  import opened Options
  import T = TcpOwnership
  import DP = DownloadProtocol

  const MAX_SAFE_INTEGER := 9_007_199_254_740_991
  const MAX_TIMER_MS := 2_147_483_647

  /** The options of one call; a limit that is not a safe integer is none. */
  datatype Ask = Ask(
    maxBytes: Option<int>, timeoutMs: Option<int>, maxRedirects: Option<int>,
    aborted: bool, url: Option<DP.Url>, late: bool)

  datatype Denial = InvalidLimits | Cancelled | CallerAborted | NoLocalPlace | NoSharedPlace

  datatype World = World(ledger: T.World, revoked: seq<bool>, calls: seq<DP.Call>)

  // --- Admission -----------------------------------------------------------------------------------

  predicate LimitsFit(a: Ask) {
    && a.maxBytes.Some? && 1 <= a.maxBytes.value <= MAX_SAFE_INTEGER
    && a.timeoutMs.Some? && 1 <= a.timeoutMs.value <= MAX_TIMER_MS
    && a.maxRedirects.Some? && 0 <= a.maxRedirects.value <= 100
  }

  /** The first check that refuses the call; a refused shared place gives the local one back. */
  function Refusal(w: World, transport: nat, a: Ask): Option<Denial>
    requires transport < |w.revoked| == |w.ledger.scopes|
  {
    var own := w.ledger.scopes[transport];
    if !LimitsFit(a) then Some(InvalidLimits)
    else if w.revoked[transport] then Some(Cancelled)
    else if a.aborted then Some(CallerAborted)
    else if own.count >= own.limit then Some(NoLocalPlace)
    else if w.ledger.count >= w.ledger.limit then Some(NoSharedPlace)
    else None
  }

  // --- Events ------------------------------------------------------------------------------------------

  datatype Event =
    | NewTransport(limit: nat)
    | Revoke(transport: nat)
    | Download(transport: nat, ask: Ask)
    | Steps(call: nat, event: DP.Event)

  /** Call `i` takes a step; settling gives both its places back. */
  function StepCall(w: World, i: nat, e: DP.Event): World
    requires Shaped(w) && i < |w.calls|
  {
    var next := DP.Next(w.calls[i], e);
    var moved := w.(calls := w.calls[i := next]);
    if next.work.Settled? && !w.calls[i].work.Settled? then moved.(ledger := T.Release(w.ledger, i)) else moved
  }

  function Admit(w: World, transport: nat, a: Ask): World
    requires Shaped(w) && transport < |w.revoked| && LimitsFit(a)
  {
    var c := DP.Begin(a.maxBytes.value, a.maxRedirects.value, a.url, false, a.late);
    var held := T.Reserve(w.ledger, Some(transport), None);
    var ledger := if c.work.Settled? then T.Release(held, |w.calls|) else held;
    w.(ledger := ledger, calls := w.calls + [c])
  }

  /** Every call of a revoked transport is aborted. */
  function AbortAll(ledger: T.World, calls: seq<DP.Call>, transport: nat): (r: seq<DP.Call>)
    requires |ledger.reservations| == |calls|
    ensures |r| == |calls|
    ensures forall i :: 0 <= i < |r| ==>
      r[i] == (if ledger.reservations[i].scope == Some(transport) then DP.Next(calls[i], DP.Abort) else calls[i])
  {
    seq(|calls|, i requires 0 <= i < |calls| =>
      if ledger.reservations[i].scope == Some(transport) then DP.Next(calls[i], DP.Abort) else calls[i])
  }

  function Step(w: World, e: Event): World
    requires Shaped(w)
  {
    match e
    case NewTransport(limit) =>
      if limit < 1 then w
      else w.(ledger := w.ledger.(scopes := w.ledger.scopes + [T.Scope(0, limit, false)]), revoked := w.revoked + [false])
    case Revoke(t) =>
      if t < |w.revoked| && !w.revoked[t]
      then w.(revoked := w.revoked[t := true], calls := AbortAll(w.ledger, w.calls, t))
      else w
    case Download(t, a) =>
      if t < |w.revoked| && Refusal(w, t, a).None? then Admit(w, t, a) else w
    case Steps(i, event) =>
      if i < |w.calls| then StepCall(w, i, event) else w
  }

  function Run(w: World, events: seq<Event>): World
    requires Shaped(w)
    decreases |events|
  {
    if events == [] then w
    else
      StepKeepsShape(w, events[0]);
      Run(Step(w, events[0]), events[1..])
  }

  function Initial(limit: nat): World { World(T.World(0, limit, [], [], [], []), [], []) }

  // --- Shape --------------------------------------------------------------------------------------------

  predicate Shaped(w: World) {
    && |w.revoked| == |w.ledger.scopes|
    && |w.ledger.reservations| == |w.calls|
    && w.ledger.connections == [] && w.ledger.authorities == []
    && (forall t :: 0 <= t < |w.ledger.scopes| ==> !w.ledger.scopes[t].closed)
    && (forall i :: 0 <= i < |w.calls| ==>
      w.ledger.reservations[i].scope.Some? && w.ledger.reservations[i].scope.value < |w.revoked|)
  }

  lemma StepKeepsShape(w: World, e: Event)
    requires Shaped(w)
    ensures Shaped(Step(w, e))
  {
  }

  // --- What every step keeps ----------------------------------------------------------------------------------

  /** A call holds its two places exactly until its work settles. */
  predicate CallHolds(w: World, i: nat)
    requires i < |w.calls| && |w.calls| == |w.ledger.reservations|
  {
    DP.Inv(w.calls[i]) && (w.ledger.reservations[i].released <==> w.calls[i].work.Settled?)
  }

  ghost predicate Inv(w: World) {
    && Shaped(w)
    && T.Conserved(w.ledger)
    && forall i :: 0 <= i < |w.calls| ==> CallHolds(w, i)
  }

  lemma StepCallKeepsInv(w: World, i: nat, e: DP.Event)
    requires Inv(w) && i < |w.calls|
    ensures Inv(StepCall(w, i, e))
  {
    var v := StepCall(w, i, e);
    assert CallHolds(w, i);
    DP.NextKeepsInv(w.calls[i], e);
    DP.NextIsFinal(w.calls[i], e);
    T.ReleaseConserves(w.ledger, i);
    forall j | 0 <= j < |v.calls| ensures CallHolds(v, j) {
      assert CallHolds(w, j);
    }
  }

  lemma AdmitConserves(w: World, t: nat, a: Ask)
    requires Shaped(w) && T.Conserved(w.ledger) && t < |w.revoked| && Refusal(w, t, a).None?
    ensures T.Conserved(Admit(w, t, a).ledger)
  {
    T.ReserveConserves(w.ledger, Some(t), None);
    T.ReleaseConserves(T.Reserve(w.ledger, Some(t), None), |w.calls|);
  }

  lemma AdmitKeepsInv(w: World, t: nat, a: Ask)
    requires Inv(w) && t < |w.revoked| && Refusal(w, t, a).None?
    ensures Inv(Admit(w, t, a))
  {
    AdmitConserves(w, t, a);
    StepKeepsShape(w, Download(t, a));
    DP.BeginKeepsInv(a.maxBytes.value, a.maxRedirects.value, a.url, false, a.late);
    var v := Admit(w, t, a);
    forall j | 0 <= j < |v.calls| ensures CallHolds(v, j) {
      if j < |w.calls| { assert CallHolds(w, j); }
    }
  }

  lemma RevokeKeepsInv(w: World, t: nat)
    requires Inv(w) && t < |w.revoked|
    ensures Inv(Step(w, Revoke(t)))
  {
    var v := Step(w, Revoke(t));
    forall j | 0 <= j < |v.calls| ensures CallHolds(v, j) {
      assert CallHolds(w, j);
      DP.NextKeepsInv(w.calls[j], DP.Abort);
    }
  }

  lemma StepKeepsInv(w: World, e: Event)
    requires Inv(w)
    ensures Inv(Step(w, e))
  {
    match e {
      case NewTransport(limit) =>
        if limit >= 1 {
          T.NewScopeConserves(w.ledger, limit);
          var v := Step(w, e);
          forall j | 0 <= j < |v.calls| ensures CallHolds(v, j) { assert CallHolds(w, j); }
        }
      case Revoke(t) => if t < |w.revoked| { RevokeKeepsInv(w, t); }
      case Download(t, a) => if t < |w.revoked| && Refusal(w, t, a).None? { AdmitKeepsInv(w, t, a); }
      case Steps(i, event) => if i < |w.calls| { StepCallKeepsInv(w, i, event); }
    }
  }

  lemma {:induction false} RunKeepsInv(w: World, events: seq<Event>)
    requires Inv(w)
    ensures Inv(Run(w, events))
    decreases |events|
  {
    if events != [] {
      StepKeepsInv(w, events[0]);
      RunKeepsInv(Step(w, events[0]), events[1..]);
    }
  }

  lemma {:induction false} LimitIsFixed(w: World, events: seq<Event>)
    requires Shaped(w)
    ensures Run(w, events).ledger.limit == w.ledger.limit
    decreases |events|
  {
    if events != [] {
      StepKeepsShape(w, events[0]);
      LimitIsFixed(Step(w, events[0]), events[1..]);
    }
  }

  /** In every interleaving the shared count and each transport's count are the downloads whose work has
    * not settled, within their limits, and each download gives its places back exactly once. */
  lemma EveryRunConserves(limit: nat, events: seq<Event>)
    ensures var w := Run(Initial(limit), events);
      && w.ledger.count == T.Held(w.ledger.reservations, None) <= limit
      && |w.ledger.reservations| == |w.calls|
      && (forall t :: 0 <= t < |w.ledger.scopes| ==>
        w.ledger.scopes[t].count == T.Held(w.ledger.reservations, Some(t)) <= w.ledger.scopes[t].limit)
      && (forall i :: 0 <= i < |w.calls| ==>
        && (w.ledger.reservations[i].released <==> w.calls[i].work.Settled?)
        && w.ledger.reservations[i].givenBack == w.calls[i].released)
  {
    RunKeepsInv(Initial(limit), events);
    LimitIsFixed(Initial(limit), events);
    var w := Run(Initial(limit), events);
    forall i | 0 <= i < |w.calls|
      ensures (w.ledger.reservations[i].released <==> w.calls[i].work.Settled?)
        && w.ledger.reservations[i].givenBack == w.calls[i].released
    {
      assert CallHolds(w, i);
    }
  }

  // --- Revocation ---------------------------------------------------------------------------------------------

  /** Call `i` belongs to transport `t`. */
  predicate Belongs(w: World, i: nat, t: nat)
    requires Shaped(w) && i < |w.calls|
  {
    w.ledger.reservations[i].scope == Some(t)
  }

  predicate Cut(c: DP.Call) { c.aborted || c.work.Settled? }

  /** Revoking leaves every call of the transport aborted or settled: none will contact anything again. */
  predicate AllCut(w: World, t: nat)
    requires Shaped(w)
  {
    t < |w.revoked| && w.revoked[t] && forall i :: 0 <= i < |w.calls| && Belongs(w, i, t) ==> Cut(w.calls[i])
  }

  lemma RevokeCutsAll(w: World, t: nat)
    requires Inv(w) && t < |w.revoked| && (w.revoked[t] ==> AllCut(w, t))
    ensures Shaped(Step(w, Revoke(t))) && AllCut(Step(w, Revoke(t)), t)
  {
    StepKeepsShape(w, Revoke(t));
    var v := Step(w, Revoke(t));
    forall i | 0 <= i < |v.calls| && Belongs(v, i, t) ensures Cut(v.calls[i]) {
      assert CallHolds(w, i);
    }
  }

  /** Every revoked transport's calls are cut. */
  predicate RevokedAreCut(w: World)
    requires Shaped(w)
  {
    forall t :: 0 <= t < |w.revoked| && w.revoked[t] ==> AllCut(w, t)
  }

  lemma StepKeepsCut(w: World, e: Event)
    requires Inv(w) && RevokedAreCut(w)
    ensures Shaped(Step(w, e)) && RevokedAreCut(Step(w, e))
  {
    StepKeepsShape(w, e);
    var v := Step(w, e);
    forall t | 0 <= t < |v.revoked| && v.revoked[t] ensures AllCut(v, t) {
      if t < |w.revoked| && w.revoked[t] { StepStaysCut(w, t, e); } else { RevokeCutsAll(w, t); }
    }
  }

  lemma {:induction false} RunKeepsCut(w: World, events: seq<Event>)
    requires Inv(w) && RevokedAreCut(w)
    ensures Shaped(Run(w, events)) && RevokedAreCut(Run(w, events))
    decreases |events|
  {
    if events != [] {
      StepKeepsCut(w, events[0]);
      StepKeepsInv(w, events[0]);
      RunKeepsCut(Step(w, events[0]), events[1..]);
    }
  }

  lemma StepStaysCut(w: World, t: nat, e: Event)
    requires Inv(w) && AllCut(w, t)
    ensures Shaped(Step(w, e)) && AllCut(Step(w, e), t)
    ensures forall i :: 0 <= i < |Step(w, e).calls| && Belongs(Step(w, e), i, t) ==> i < |w.calls| && Belongs(w, i, t)
  {
    StepKeepsShape(w, e);
    var v := Step(w, e);
    if e.Steps? && e.call < |w.calls| { DP.NextIsFinal(w.calls[e.call], e.event); }
  }

  lemma {:induction false} CutStaysCut(w: World, t: nat, events: seq<Event>)
    requires Inv(w) && AllCut(w, t)
    ensures Shaped(Run(w, events)) && AllCut(Run(w, events), t)
    ensures forall i | 0 <= i < |Run(w, events).calls| && Belongs(Run(w, events), i, t) ::
      i < |w.calls| && Belongs(w, i, t)
    decreases |events|
  {
    if events != [] {
      StepStaysCut(w, t, events[0]);
      StepKeepsInv(w, events[0]);
      CutStaysCut(Step(w, events[0]), t, events[1..]);
    }
  }

  /** Once a transport is revoked, at any moment of any run, every download it has is aborted or settled,
    * and from then on it stays revoked, they stay so, and it gets no other, whatever happens later. */
  lemma RevocationIsFinal(limit: nat, events: seq<Event>, t: nat, later: seq<Event>)
    requires var w := Run(Initial(limit), events); t < |w.revoked| && w.revoked[t]
    ensures var w := Run(Initial(limit), events);
      && Shaped(w) && AllCut(w, t)
      && var v := Run(w, later);
        && Shaped(v) && AllCut(v, t)
        && forall i | 0 <= i < |v.calls| && Belongs(v, i, t) :: i < |w.calls| && Belongs(w, i, t)
  {
    RunKeepsInv(Initial(limit), events);
    RunKeepsCut(Initial(limit), events);
    CutStaysCut(Run(Initial(limit), events), t, later);
  }
}
