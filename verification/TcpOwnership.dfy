/** Every authority, session scope, reservation and attempt of one service runtime, together.
  *
  * A world changes by one event at a time: a session scope or an authority is created, a
  * connection is asked for, an attempt takes a step, an authority is revoked, a direct holder
  * reserves or releases.  Any sequence of events is an interleaving of the running service.
  */
module TcpOwnership {
  import opened Options
  import AP = AttemptProtocol

  const MAX_TIMER_MS := 2_147_483_647

  // --- State ---------------------------------------------------------------------------

  /** One call of `reserve`; `givenBack` counts how often it gave its place back. */
  datatype Reservation = Reservation(scope: Option<nat>, attempt: Option<nat>, released: bool, givenBack: nat)

  datatype Scope = Scope(count: int, limit: nat, closed: bool)

  datatype Authority = Authority(
    scope: nat, maxConnections: nat, maxDnsAnswers: nat, setupTimeout: nat,
    revoked: bool, live: set<nat>, closed: bool)

  datatype Connection = Connection(authority: nat, reservation: nat, attempt: AP.Attempt)

  datatype World = World(
    count: int, limit: nat,
    reservations: seq<Reservation>,
    scopes: seq<Scope>,
    authorities: seq<Authority>,
    connections: seq<Connection>)

  // --- Reservations ----------------------------------------------------------------------

  datatype Denial =
    | Revoked | CallerCancelled | InvalidDeadline | DeadlinePassed | InvalidDestination
    | AuthorityCapacity | SessionClosed | SessionCapacity | RuntimeCapacity

  function ReserveDenial(w: World, scope: Option<nat>): Option<Denial>
    requires scope.Some? ==> scope.value < |w.scopes|
  {
    if scope.Some? && w.scopes[scope.value].closed then Some(SessionClosed)
    else if scope.Some? && w.scopes[scope.value].count >= w.scopes[scope.value].limit then Some(SessionCapacity)
    else if w.count >= w.limit then Some(RuntimeCapacity)
    else None
  }

  function Reserve(w: World, scope: Option<nat>, attempt: Option<nat>): World
    requires scope.Some? ==> scope.value < |w.scopes|
  {
    w.(count := w.count + 1,
       scopes := if scope.None? then w.scopes
                 else w.scopes[scope.value := w.scopes[scope.value].(count := w.scopes[scope.value].count + 1)],
       reservations := w.reservations + [Reservation(scope, attempt, false, 0)])
  }

  function Release(w: World, r: nat): World
    requires r < |w.reservations|
    requires w.reservations[r].scope.Some? ==> w.reservations[r].scope.value < |w.scopes|
  {
    var it := w.reservations[r];
    if it.released then w
    else
      w.(count := w.count - 1,
         scopes := if it.scope.None? then w.scopes
                   else w.scopes[it.scope.value := w.scopes[it.scope.value].(count := w.scopes[it.scope.value].count - 1)],
         reservations := w.reservations[r := it.(released := true, givenBack := it.givenBack + 1)])
  }

  // --- Authorities -------------------------------------------------------------------------

  /** The `drained` callback of attempt `i`: give back, forget, and perhaps resolve `closed`. */
  function Drained(w: World, i: nat): World
    requires i < |w.connections|
    requires w.connections[i].authority < |w.authorities|
    requires w.connections[i].reservation < |w.reservations|
    requires var r := w.reservations[w.connections[i].reservation];
             r.scope.Some? ==> r.scope.value < |w.scopes|
  {
    var c := w.connections[i];
    var released := Release(w, c.reservation);
    var a := released.authorities[c.authority];
    var live := a.live - {i};
    released.(authorities :=
      released.authorities[c.authority := a.(live := live, closed := a.closed || (a.revoked && live == {}))])
  }

  predicate Linked(w: World, i: nat)
    requires i < |w.connections|
  {
    var c := w.connections[i];
    && c.authority < |w.authorities|
    && c.reservation < |w.reservations|
    && w.reservations[c.reservation].attempt == Some(i)
    && w.authorities[c.authority].scope < |w.scopes|
    && w.reservations[c.reservation].scope == Some(w.authorities[c.authority].scope)
  }

  predicate AllLinked(w: World) {
    && (forall j :: 0 <= j < |w.connections| ==> Linked(w, j))
    && (forall k :: 0 <= k < |w.authorities| ==> w.authorities[k].scope < |w.scopes|)
    && (forall r :: 0 <= r < |w.reservations| && w.reservations[r].scope.Some? ==>
          w.reservations[r].scope.value < |w.scopes|)
  }

  /** Links stay when connections stay, nothing is removed, and no scope or owner is reassigned. */
  lemma LinksCarryOver(w: World, v: World)
    requires AllLinked(w)
    requires v.connections == w.connections && |v.scopes| >= |w.scopes|
    requires |v.authorities| >= |w.authorities| && |v.reservations| >= |w.reservations|
    requires forall k :: 0 <= k < |w.authorities| ==> v.authorities[k].scope == w.authorities[k].scope
    requires forall k :: |w.authorities| <= k < |v.authorities| ==> v.authorities[k].scope < |v.scopes|
    requires forall r :: 0 <= r < |w.reservations| ==>
               v.reservations[r].scope == w.reservations[r].scope && v.reservations[r].attempt == w.reservations[r].attempt
    requires forall r :: |w.reservations| <= r < |v.reservations| && v.reservations[r].scope.Some? ==>
               v.reservations[r].scope.value < |v.scopes|
    ensures AllLinked(v)
  {
    forall j | 0 <= j < |v.connections|
      ensures Linked(v, j)
    {
      assert Linked(w, j);
    }
  }

  /** Attempt `i` moves to `next`; draining for the first time runs its callback. */
  function Move(w: World, i: nat, next: AP.Attempt): World
    requires i < |w.connections| && Linked(w, i)
  {
    var was := w.connections[i];
    var moved := w.(connections := w.connections[i := was.(attempt := next)]);
    if next.drained && !was.attempt.drained then Drained(moved, i) else moved
  }

  lemma MoveKeepsLinks(w: World, i: nat, next: AP.Attempt)
    requires AllLinked(w) && i < |w.connections|
    ensures var v := Move(w, i, next);
            && AllLinked(v)
            && |v.connections| == |w.connections|
            && |v.authorities| == |w.authorities|
            && |v.scopes| == |w.scopes|
            && |v.reservations| == |w.reservations|
  {
    assert Linked(w, i);
    var v := Move(w, i, next);
    forall j | 0 <= j < |v.connections|
      ensures Linked(v, j)
    {
      assert Linked(w, j);
    }
  }

  datatype ConnectCall = ConnectCall(
    destination: Option<AP.Destination>, aborted: bool, deadline: Option<int>,
    now: int, lateAbort: bool, startedAt: int, firstCheckAt: int)

  function ConnectDenial(w: World, authority: nat, call: ConnectCall): Option<Denial>
    requires authority < |w.authorities| && w.authorities[authority].scope < |w.scopes|
  {
    var a := w.authorities[authority];
    if a.revoked then Some(Revoked)
    else if call.aborted then Some(CallerCancelled)
    else if call.deadline.None? || call.deadline.value - call.now > MAX_TIMER_MS then Some(InvalidDeadline)
    else if call.deadline.value <= call.now then Some(DeadlinePassed)
    else if call.destination.None? then Some(InvalidDestination)
    else if |a.live| >= a.maxConnections then Some(AuthorityCapacity)
    else ReserveDenial(w, Some(a.scope))
  }

  /** Reserve a place and add a new attempt, not yet started, to the authority's set. */
  function Admit(w: World, authority: nat, call: ConnectCall): World
    requires authority < |w.authorities| && w.authorities[authority].scope < |w.scopes|
    requires call.destination.Some? && call.deadline.Some?
  {
    var a := w.authorities[authority];
    var i := |w.connections|;
    var plan := AP.Plan(call.destination.value, call.deadline.value,
                        call.startedAt + a.setupTimeout, a.maxDnsAnswers);
    var reserved := Reserve(w, Some(a.scope), Some(i));
    reserved.(
      connections := reserved.connections + [Connection(authority, |w.reservations|, AP.Fresh(plan))],
      authorities := reserved.authorities[authority := a.(live := a.live + {i})])
  }

  function Connect(w: World, authority: nat, call: ConnectCall): World
    requires authority < |w.authorities| && w.authorities[authority].scope < |w.scopes|
  {
    if ConnectDenial(w, authority, call).Some? then w
    else
      var admitted := Admit(w, authority, call);
      var i := |w.connections|;
      Move(admitted, i, AP.Begin(admitted.connections[i].attempt, call.lateAbort, call.firstCheckAt))
  }

  /** The loop over the authority's attempts, in the order they were admitted. */
  function StopFrom(w: World, authority: nat, i: nat): (v: World)
    requires AllLinked(w) && authority < |w.authorities|
    ensures AllLinked(v) && |v.authorities| == |w.authorities|
    decreases |w.connections| - i
  {
    if i >= |w.connections| then w
    else if i in w.authorities[authority].live then
      var next := AP.Next(w.connections[i].attempt, AP.AuthorityRevokes);
      assert Linked(w, i);
      MoveKeepsLinks(w, i, next);
      StopFrom(Move(w, i, next), authority, i + 1)
    else StopFrom(w, authority, i + 1)
  }

  function Revoke(w: World, authority: nat): World
    requires AllLinked(w) && authority < |w.authorities|
  {
    var a := w.authorities[authority];
    if a.revoked then w
    else
      var marked := w.(authorities := w.authorities[authority := a.(revoked := true)]);
      LinksCarryOver(w, marked);
      var stopped := StopFrom(marked, authority, 0);
      var b := stopped.authorities[authority];
      stopped.(authorities := stopped.authorities[authority := b.(closed := b.closed || b.live == {})])
  }

  // --- One event -----------------------------------------------------------------------------

  datatype Event =
    | CreateScope(limit: nat)
    | CloseAdmission(scope: nat)
    | CreateAuthority(scope: nat, maxConnections: nat, maxDnsAnswers: nat, setupTimeout: nat)
    | ReserveDirectly(from: Option<nat>)
    | ReleaseDirectly(reservation: nat)
    | AskConnect(authority: nat, call: ConnectCall)
    | AttemptSteps(connection: nat, event: AP.Event)
    | RevokeAuthority(authority: nat)

  /** Events that name nothing, or a reservation some attempt owns, change nothing: an attempt's
    * release function is private to its authority. */
  function Step(w: World, e: Event): World
    requires AllLinked(w)
  {
    match e
    case CreateScope(limit) =>
      if 1 <= limit <= 8 && 1 <= w.limit <= 32 then w.(scopes := w.scopes + [Scope(0, limit, false)]) else w
    case CloseAdmission(s) =>
      if s < |w.scopes| then w.(scopes := w.scopes[s := w.scopes[s].(closed := true)]) else w
    case CreateAuthority(s, maxConnections, maxDnsAnswers, setupTimeout) =>
      if s < |w.scopes| && 1 <= maxConnections && 1 <= maxDnsAnswers <= 16 && 1 <= setupTimeout <= 10_000
      then w.(authorities := w.authorities + [Authority(s, maxConnections, maxDnsAnswers, setupTimeout, false, {}, false)])
      else w
    case ReserveDirectly(from) =>
      if (from.Some? && from.value >= |w.scopes|) || ReserveDenial(w, from).Some? then w else Reserve(w, from, None)
    case ReleaseDirectly(r) =>
      if r < |w.reservations| && w.reservations[r].attempt.None? then Release(w, r) else w
    case AskConnect(k, call) =>
      if k < |w.authorities| then Connect(w, k, call) else w
    case AttemptSteps(i, event) =>
      if i < |w.connections| then Move(w, i, AP.Next(w.connections[i].attempt, event)) else w
    case RevokeAuthority(k) =>
      if k < |w.authorities| then Revoke(w, k) else w
  }

  function Run(w: World, events: seq<Event>): World
    requires AllLinked(w)
    decreases |events|
  {
    if events == [] then w
    else
      StepKeepsLinks(w, events[0]);
      Run(Step(w, events[0]), events[1..])
  }

  lemma AdmitKeepsLinks(w: World, k: nat, call: ConnectCall)
    requires AllLinked(w) && k < |w.authorities| && call.destination.Some? && call.deadline.Some?
    ensures AllLinked(Admit(w, k, call))
  {
    var v := Admit(w, k, call);
    forall j | 0 <= j < |v.connections|
      ensures Linked(v, j)
    {
      if j < |w.connections| { assert Linked(w, j); }
    }
  }

  lemma RevokeKeepsLinks(w: World, k: nat)
    requires AllLinked(w) && k < |w.authorities|
    ensures AllLinked(Revoke(w, k))
  {
    if !w.authorities[k].revoked {
      var v := Revoke(w, k);
      var marked := w.(authorities := w.authorities[k := w.authorities[k].(revoked := true)]);
      LinksCarryOver(w, marked);
      LinksCarryOver(StopFrom(marked, k, 0), v);
    }
  }

  lemma StepKeepsLinks(w: World, e: Event)
    requires AllLinked(w)
    ensures AllLinked(Step(w, e))
  {
    match e
    case AttemptSteps(i, event) =>
      if i < |w.connections| { MoveKeepsLinks(w, i, AP.Next(w.connections[i].attempt, event)); }
    case AskConnect(k, call) =>
      if k < |w.authorities| && ConnectDenial(w, k, call).None? {
        AdmitKeepsLinks(w, k, call);
        var admitted := Admit(w, k, call);
        MoveKeepsLinks(admitted, |w.connections|,
                       AP.Begin(admitted.connections[|w.connections|].attempt, call.lateAbort, call.firstCheckAt));
      }
    case RevokeAuthority(k) =>
      if k < |w.authorities| { RevokeKeepsLinks(w, k); }
    case _ =>
      LinksCarryOver(w, Step(w, e));
  }

  // --- The ledger of reservations ----------------------------------------------------------------

  predicate Holds(r: Reservation, scope: Option<nat>) {
    !r.released && (scope.None? || r.scope == scope)
  }

  /** How many reservations are held: in one scope, or in the whole runtime. */
  function Held(reservations: seq<Reservation>, scope: Option<nat>): nat {
    if reservations == [] then 0
    else
      var last := |reservations| - 1;
      Held(reservations[..last], scope) + (if Holds(reservations[last], scope) then 1 else 0)
  }

  lemma HeldAppend(reservations: seq<Reservation>, r: Reservation, scope: Option<nat>)
    ensures Held(reservations + [r], scope) == Held(reservations, scope) + (if Holds(r, scope) then 1 else 0)
  {
    assert (reservations + [r])[..|reservations|] == reservations;
  }

  lemma {:induction false} HeldUpdate(reservations: seq<Reservation>, i: nat, r: Reservation, scope: Option<nat>)
    requires i < |reservations|
    ensures Held(reservations[i := r], scope) + (if Holds(reservations[i], scope) then 1 else 0)
         == Held(reservations, scope) + (if Holds(r, scope) then 1 else 0)
  {
    var last := |reservations| - 1;
    if i == last {
      assert reservations[i := r][..last] == reservations[..last];
    } else {
      HeldUpdate(reservations[..last], i, r, scope);
      assert reservations[i := r][..last] == reservations[..last][i := r];
    }
  }

  // --- What every step keeps ----------------------------------------------------------------------

  /** Counts are exactly the held reservations, within their limits; each is given back once. */
  ghost predicate Conserved(w: World) {
    && w.count == Held(w.reservations, None) <= w.limit
    && (forall s :: 0 <= s < |w.scopes| ==>
          w.scopes[s].count == Held(w.reservations, Some(s)) <= w.scopes[s].limit)
    && (forall r :: 0 <= r < |w.reservations| ==>
          w.reservations[r].givenBack == (if w.reservations[r].released then 1 else 0))
  }

  predicate ConnectionHolds(w: World, i: nat)
    requires i < |w.connections|
  {
    var c := w.connections[i];
    && Linked(w, i)
    && AP.Inv(c.attempt)
    && (w.reservations[c.reservation].released <==> c.attempt.drained)
    && (i in w.authorities[c.authority].live <==> !c.attempt.drained)
  }

  /** A running attempt is in its authority's set and owns one held reservation of its own. */
  ghost predicate Owned(w: World)
    requires AllLinked(w)
  {
    && (forall i :: 0 <= i < |w.connections| ==> ConnectionHolds(w, i))
    && (forall r :: 0 <= r < |w.reservations| && w.reservations[r].attempt.Some? ==>
          && w.reservations[r].attempt.value < |w.connections|
          && w.connections[w.reservations[r].attempt.value].reservation == r)
  }

  ghost predicate AuthorityHolds(w: World, k: nat)
    requires k < |w.authorities|
  {
    var a := w.authorities[k];
    && (forall i :: i in a.live ==> i < |w.connections| && w.connections[i].authority == k)
    && |a.live| <= a.maxConnections
    && (a.closed <==> a.revoked && a.live == {})
    && (a.revoked ==> forall i :: i in a.live ==> w.connections[i].attempt.terminal.Some?)
  }

  ghost predicate Inv(w: World) {
    && AllLinked(w)
    && Conserved(w)
    && Owned(w)
    && forall k :: 0 <= k < |w.authorities| ==> AuthorityHolds(w, k)
  }

  lemma ReserveConserves(w: World, scope: Option<nat>, attempt: Option<nat>)
    requires Conserved(w)
    requires scope.Some? ==> scope.value < |w.scopes|
    requires ReserveDenial(w, scope).None?
    ensures Conserved(Reserve(w, scope, attempt))
  {
    var v := Reserve(w, scope, attempt);
    var r := Reservation(scope, attempt, false, 0);
    HeldAppend(w.reservations, r, None);
    forall s | 0 <= s < |w.scopes|
      ensures v.scopes[s].count == Held(v.reservations, Some(s)) <= v.scopes[s].limit
    {
      HeldAppend(w.reservations, r, Some(s));
    }
  }

  lemma ReleaseConserves(w: World, r: nat)
    requires Conserved(w) && r < |w.reservations|
    requires w.reservations[r].scope.Some? ==> w.reservations[r].scope.value < |w.scopes|
    ensures Conserved(Release(w, r))
  {
    var v := Release(w, r);
    var it := w.reservations[r].(released := true, givenBack := w.reservations[r].givenBack + 1);
    HeldUpdate(w.reservations, r, it, None);
    forall s | 0 <= s < |w.scopes|
      ensures v.scopes[s].count == Held(v.reservations, Some(s)) <= v.scopes[s].limit
    {
      HeldUpdate(w.reservations, r, it, Some(s));
    }
  }

  /** Moving an attempt keeps the invariant, whether or not the move drains it. */
  lemma MoveKeepsInv(w: World, i: nat, next: AP.Attempt)
    requires Inv(w) && i < |w.connections|
    requires AP.Inv(next) && AP.Follows(w.connections[i].attempt, next)
    ensures Inv(Move(w, i, next))
  {
    MoveKeepsLinks(w, i, next);
    var was := w.connections[i];
    assert ConnectionHolds(w, i);
    var v := Move(w, i, next);
    if next.drained && !was.attempt.drained {
      var moved := w.(connections := w.connections[i := was.(attempt := next)]);
      ReleaseConserves(moved, was.reservation);
    }
    MoveKeepsOwned(w, i, next);
    forall k | 0 <= k < |v.authorities|
      ensures AuthorityHolds(v, k)
    {
      assert AuthorityHolds(w, k);
    }
  }

  lemma MoveKeepsOwned(w: World, i: nat, next: AP.Attempt)
    requires Inv(w) && i < |w.connections|
    requires AP.Inv(next) && AP.Follows(w.connections[i].attempt, next)
    requires AllLinked(Move(w, i, next))
    ensures Owned(Move(w, i, next))
  {
    assert ConnectionHolds(w, i);
    var v := Move(w, i, next);
    forall j | 0 <= j < |v.connections|
      ensures ConnectionHolds(v, j)
    {
      assert ConnectionHolds(w, j) && Linked(v, j);
    }
  }

  /** Stopping an attempt that is still in the set never drains it on the spot: either its run or
    * its socket is outstanding.  So the revocation loop removes nothing from the set it walks. */
  lemma RevocationOnlyStops(a: AP.Attempt)
    requires AP.Inv(a)
    ensures var b := AP.Next(a, AP.AuthorityRevokes);
            AP.Inv(b) && AP.Follows(a, b) && b.terminal.Some? && b.drained == a.drained
  {
    AP.StopKeepsInv(a, AP.Stop(AP.Admission, AP.AuthorityRevoked));
  }

  function StoppedIf(c: Connection, stop: bool): Connection {
    if stop then c.(attempt := AP.Next(c.attempt, AP.AuthorityRevokes)) else c
  }

  lemma {:induction false} StopFromStopsAll(w: World, k: nat, i: nat)
    requires AllLinked(w) && k < |w.authorities|
    requires forall j :: 0 <= j < |w.connections| ==> AP.Inv(w.connections[j].attempt)
    ensures var v := StopFrom(w, k, i);
            && |v.connections| == |w.connections|
            && v == w.(connections := v.connections)
            && forall j :: 0 <= j < |w.connections| ==>
                 v.connections[j] == StoppedIf(w.connections[j], i <= j && j in w.authorities[k].live)
    decreases |w.connections| - i
  {
    if i < |w.connections| {
      if i in w.authorities[k].live {
        assert Linked(w, i);
        var next := AP.Next(w.connections[i].attempt, AP.AuthorityRevokes);
        RevocationOnlyStops(w.connections[i].attempt);
        MoveKeepsLinks(w, i, next);
        StopFromStopsAll(Move(w, i, next), k, i + 1);
      } else {
        StopFromStopsAll(w, k, i + 1);
      }
    }
  }

  /** What revoking does: it marks the authority and stops every attempt in its set, no more. */
  lemma RevokeEffect(w: World, k: nat)
    requires Inv(w) && k < |w.authorities| && !w.authorities[k].revoked
    ensures var v := Revoke(w, k);
            var a := w.authorities[k];
            && |v.connections| == |w.connections|
            && v == w.(connections := v.connections,
                       authorities := w.authorities[k := a.(revoked := true, closed := a.live == {})])
            && forall j :: 0 <= j < |w.connections| ==>
                 v.connections[j] == StoppedIf(w.connections[j], j in a.live)
  {
    var marked := w.(authorities := w.authorities[k := w.authorities[k].(revoked := true)]);
    LinksCarryOver(w, marked);
    forall j | 0 <= j < |w.connections|
      ensures AP.Inv(marked.connections[j].attempt)
    {
      assert ConnectionHolds(w, j);
    }
    StopFromStopsAll(marked, k, 0);
    assert AuthorityHolds(w, k);
  }

  lemma RevokeKeepsOwned(w: World, k: nat)
    requires Inv(w) && k < |w.authorities| && AllLinked(Revoke(w, k))
    ensures Owned(Revoke(w, k))
  {
    var v := Revoke(w, k);
    if !w.authorities[k].revoked {
      RevokeEffect(w, k);
      forall j | 0 <= j < |v.connections|
        ensures ConnectionHolds(v, j)
      {
        assert ConnectionHolds(w, j) && Linked(v, j);
        RevocationOnlyStops(w.connections[j].attempt);
      }
    }
  }

  lemma RevokeKeepsInv(w: World, k: nat)
    requires Inv(w) && k < |w.authorities|
    ensures Inv(Revoke(w, k))
  {
    RevokeKeepsLinks(w, k);
    RevokeKeepsOwned(w, k);
    var v := Revoke(w, k);
    if !w.authorities[k].revoked {
      RevokeEffect(w, k);
      forall l | 0 <= l < |v.authorities|
        ensures AuthorityHolds(v, l)
      {
        assert AuthorityHolds(w, l);
        forall j | j in v.authorities[l].live && v.authorities[l].revoked
          ensures v.connections[j].attempt.terminal.Some?
        {
          assert ConnectionHolds(w, j);
          RevocationOnlyStops(w.connections[j].attempt);
        }
      }
    }
  }

  lemma AdmitKeepsOwned(w: World, k: nat, call: ConnectCall)
    requires Inv(w) && k < |w.authorities| && ConnectDenial(w, k, call).None?
    requires AllLinked(Admit(w, k, call))
    ensures Owned(Admit(w, k, call))
  {
    var v := Admit(w, k, call);
    var i := |w.connections|;
    assert AuthorityHolds(w, k);
    forall j | 0 <= j < |v.connections|
      ensures ConnectionHolds(v, j)
    {
      assert Linked(v, j);
      if j < i { assert ConnectionHolds(w, j); }
    }
  }

  lemma AdmitKeepsInv(w: World, k: nat, call: ConnectCall)
    requires Inv(w) && k < |w.authorities| && ConnectDenial(w, k, call).None?
    ensures Inv(Admit(w, k, call))
  {
    var v := Admit(w, k, call);
    AdmitKeepsLinks(w, k, call);
    AdmitKeepsOwned(w, k, call);
    ReserveConserves(w, Some(w.authorities[k].scope), Some(|w.connections|));
    forall l | 0 <= l < |v.authorities|
      ensures AuthorityHolds(v, l)
    {
      assert AuthorityHolds(w, l);
    }
  }

  lemma ConnectKeepsInv(w: World, k: nat, call: ConnectCall)
    requires Inv(w) && k < |w.authorities|
    ensures Inv(Connect(w, k, call))
  {
    if ConnectDenial(w, k, call).None? {
      AdmitKeepsInv(w, k, call);
      var admitted := Admit(w, k, call);
      var initial := admitted.connections[|w.connections|].attempt;
      AP.BeginKeepsInv(initial.plan, call.lateAbort, call.firstCheckAt);
      MoveKeepsInv(admitted, |w.connections|, AP.Begin(initial, call.lateAbort, call.firstCheckAt));
    }
  }

  /** A step that leaves attempts and authorities alone keeps the invariant if it conserves. */
  lemma BookkeepingKeepsInv(w: World, v: World)
    requires Inv(w) && AllLinked(v) && Conserved(v)
    requires v.connections == w.connections && w.authorities <= v.authorities
    requires forall k :: |w.authorities| <= k < |v.authorities| ==>
               v.authorities[k].live == {} && !v.authorities[k].revoked && !v.authorities[k].closed
    requires |w.reservations| <= |v.reservations|
    requires forall r :: 0 <= r < |w.reservations| ==>
               v.reservations[r] == w.reservations[r]
               || (v.reservations[r].attempt.None? && w.reservations[r].attempt.None?)
    requires forall r :: |w.reservations| <= r < |v.reservations| ==> v.reservations[r].attempt.None?
    ensures Inv(v)
  {
    forall j | 0 <= j < |v.connections|
      ensures ConnectionHolds(v, j)
    {
      assert ConnectionHolds(w, j) && Linked(v, j);
    }
    forall l | 0 <= l < |v.authorities|
      ensures AuthorityHolds(v, l)
    {
      if l < |w.authorities| { assert AuthorityHolds(w, l); }
    }
  }

  lemma NewScopeConserves(w: World, limit: nat)
    requires AllLinked(w) && Conserved(w)
    ensures Conserved(w.(scopes := w.scopes + [Scope(0, limit, false)]))
  {
    NothingHeldInNewScope(w, w.reservations);
  }

  lemma {:induction false} NothingHeldInNewScope(w: World, reservations: seq<Reservation>)
    requires AllLinked(w)
    requires reservations <= w.reservations
    ensures Held(reservations, Some(|w.scopes|)) == 0
    decreases |reservations|
  {
    if reservations != [] {
      NothingHeldInNewScope(w, reservations[..|reservations| - 1]);
    }
  }

  lemma DirectHolderKeepsInv(w: World, e: Event)
    requires Inv(w) && AllLinked(Step(w, e))
    requires e.ReserveDirectly? || e.ReleaseDirectly?
    ensures Inv(Step(w, e))
  {
    if e.ReserveDirectly? && Step(w, e) != w {
      ReserveConserves(w, e.from, None);
    } else if e.ReleaseDirectly? && Step(w, e) != w {
      ReleaseConserves(w, e.reservation);
    }
    BookkeepingKeepsInv(w, Step(w, e));
  }

  lemma CreationKeepsInv(w: World, e: Event)
    requires Inv(w) && AllLinked(Step(w, e))
    requires e.CreateScope? || e.CloseAdmission? || e.CreateAuthority?
    ensures Inv(Step(w, e))
  {
    if e.CreateScope? {
      NewScopeConserves(w, e.limit);
    }
    BookkeepingKeepsInv(w, Step(w, e));
  }

  lemma StepKeepsInv(w: World, e: Event)
    requires Inv(w)
    ensures AllLinked(Step(w, e)) && Inv(Step(w, e))
  {
    StepKeepsLinks(w, e);
    match e
    case AskConnect(k, call) =>
      if k < |w.authorities| { ConnectKeepsInv(w, k, call); }
    case AttemptSteps(i, event) =>
      if i < |w.connections| {
        assert ConnectionHolds(w, i);
        AP.NextKeepsInv(w.connections[i].attempt, event);
        MoveKeepsInv(w, i, AP.Next(w.connections[i].attempt, event));
      }
    case RevokeAuthority(k) =>
      if k < |w.authorities| { RevokeKeepsInv(w, k); }
    case ReserveDirectly(_) => DirectHolderKeepsInv(w, e);
    case ReleaseDirectly(_) => DirectHolderKeepsInv(w, e);
    case _ => CreationKeepsInv(w, e);
  }

  // --- Main results ---------------------------------------------------------------------------

  /** The runtime before anything happened. */
  function Started(limit: nat): World {
    World(0, limit, [], [], [], [])
  }

  /** In every interleaving: counts are exactly the held reservations and within their limits,
    * every reservation gives back at most once, and every running attempt owns exactly one. */
  lemma {:induction false} RunKeepsInv(w: World, events: seq<Event>)
    requires Inv(w)
    ensures AllLinked(Run(w, events)) && Inv(Run(w, events))
    decreases |events|
  {
    if events != [] {
      StepKeepsInv(w, events[0]);
      RunKeepsInv(Step(w, events[0]), events[1..]);
    }
  }

  lemma EveryRunConserves(limit: nat, events: seq<Event>)
    ensures var w := Run(Started(limit), events);
            && w.count == Held(w.reservations, None) <= limit
            && (forall s :: 0 <= s < |w.scopes| ==>
                  w.scopes[s].count == Held(w.reservations, Some(s)) <= w.scopes[s].limit)
            && (forall r :: 0 <= r < |w.reservations| ==> w.reservations[r].givenBack <= 1)
  {
    RunKeepsInv(Started(limit), events);
    LimitIsFixed(Started(limit), events);
  }

  lemma {:induction false} LimitIsFixed(w: World, events: seq<Event>)
    requires Inv(w)
    ensures Run(w, events).limit == w.limit
    decreases |events|
  {
    if events != [] {
      StepKeepsInv(w, events[0]);
      StepKeepsIdentities(w, events[0]);
      LimitIsFixed(Step(w, events[0]), events[1..]);
    }
  }

  /** The reservation of attempt `i` is the only one made for it, and held exactly until it drains. */
  lemma AttemptOwnsExactlyOne(w: World, i: nat)
    requires Inv(w) && i < |w.connections|
    ensures forall r :: 0 <= r < |w.reservations| ==>
              (w.reservations[r].attempt == Some(i) <==> r == w.connections[i].reservation)
    ensures Linked(w, i)
    ensures var own := w.reservations[w.connections[i].reservation];
            own.released == w.connections[i].attempt.drained
            && own.givenBack == (if w.connections[i].attempt.drained then 1 else 0)
  {
    assert ConnectionHolds(w, i);
  }

  /** `closed` resolves exactly when the authority is revoked and every attempt it ever admitted has drained. */
  lemma ClosedExactlyWhenDrained(w: World, k: nat)
    requires Inv(w) && k < |w.authorities|
    ensures w.authorities[k].closed <==>
              w.authorities[k].revoked
              && forall i :: 0 <= i < |w.connections| && w.connections[i].authority == k ==> w.connections[i].attempt.drained
  {
    assert AuthorityHolds(w, k);
    if w.authorities[k].live != {} {
      var i :| i in w.authorities[k].live;
      assert ConnectionHolds(w, i);
    } else {
      forall i | 0 <= i < |w.connections| && w.connections[i].authority == k
        ensures w.connections[i].attempt.drained
      {
        assert ConnectionHolds(w, i);
      }
    }
  }

  /** What one step never changes about what already exists. */
  lemma StepKeepsIdentities(w: World, e: Event)
    requires Inv(w)
    ensures var v := Step(w, e);
            && v.limit == w.limit
            && |w.authorities| <= |v.authorities|
            && |w.connections| <= |v.connections|
            && (forall k :: 0 <= k < |w.authorities| && w.authorities[k].revoked ==>
                  v.authorities[k].revoked && v.authorities[k].live <= w.authorities[k].live)
            && (forall i :: 0 <= i < |w.connections| ==>
                  && v.connections[i].authority == w.connections[i].authority
                  && v.connections[i].reservation == w.connections[i].reservation)
  {
    StepKeepsLinks(w, e);
    match e {
      case RevokeAuthority(k) =>
        if k < |w.authorities| && !w.authorities[k].revoked { RevokeEffect(w, k); }
      case AttemptSteps(i, _) =>
        if i < |w.connections| { assert ConnectionHolds(w, i); }
      case _ =>
    }
  }

  /** A revoked authority never reopens: its set only shrinks, and once closed it stays closed. */
  lemma {:induction false} RevocationIsFinal(w: World, k: nat, events: seq<Event>)
    requires Inv(w) && k < |w.authorities| && w.authorities[k].revoked
    ensures var v := Run(w, events);
            && k < |v.authorities|
            && v.authorities[k].revoked
            && v.authorities[k].live <= w.authorities[k].live
            && (w.authorities[k].closed ==> v.authorities[k].closed)
    decreases |events|
  {
    if events != [] {
      var v := Step(w, events[0]);
      StepKeepsInv(w, events[0]);
      StepKeepsIdentities(w, events[0]);
      assert AuthorityHolds(w, k) && AuthorityHolds(v, k);
      RevocationIsFinal(v, k, events[1..]);
    }
  }

  /** Seen from one attempt, any run of the whole runtime is a run of that attempt alone, so all
    * that holds of an attempt under every order of its own events holds under every interleaving. */
  lemma {:induction false} ConnectionRunsAlone(w: World, i: nat, events: seq<Event>) returns (own: seq<AP.Event>)
    requires Inv(w) && i < |w.connections|
    ensures i < |Run(w, events).connections|
    ensures Run(w, events).connections[i].attempt == AP.Run(w.connections[i].attempt, own)
    decreases |events|
  {
    if events == [] {
      own := [];
    } else {
      var first := StepFromAttempt(w, i, events[0]);
      StepKeepsInv(w, events[0]);
      StepKeepsIdentities(w, events[0]);
      var rest := ConnectionRunsAlone(Step(w, events[0]), i, events[1..]);
      own := first + rest;
      if first != [] {
        assert own[1..] == rest;
      } else {
        assert own == rest;
      }
    }
  }

  lemma StepFromAttempt(w: World, i: nat, e: Event) returns (own: seq<AP.Event>)
    requires Inv(w) && i < |w.connections|
    ensures |own| <= 1
    ensures i < |Step(w, e).connections|
    ensures Step(w, e).connections[i].attempt
         == (if own == [] then w.connections[i].attempt else AP.Next(w.connections[i].attempt, own[0]))
  {
    own := [];
    if e.AttemptSteps? && e.connection == i {
      own := [e.event];
    } else if e.RevokeAuthority? && e.authority < |w.authorities| && !w.authorities[e.authority].revoked {
      RevokeEffect(w, e.authority);
      if i in w.authorities[e.authority].live {
        own := [AP.AuthorityRevokes];
      }
    }
  }

  /** A lease in anyone's hands, at any moment of any interleaving, was earned by the whole chain
    * of checks, and the attempt was never stopped before it was handed over. */
  lemma EveryLeaseIsEarned(w: World, i: nat, events: seq<Event>) returns (own: seq<AP.Event>, k: nat)
    requires Inv(w) && i < |w.connections| && !w.connections[i].attempt.evidence.handedOver
    requires i < |Run(w, events).connections| && Run(w, events).connections[i].attempt.evidence.handedOver
    ensures k < |own| && Run(w, events).connections[i].attempt == AP.Run(w.connections[i].attempt, own)
    ensures own[k].ConnectResumes? && AP.DeliveredLawfully(AP.Run(w.connections[i].attempt, own[..k]))
    ensures forall j :: 0 <= j <= k ==> AP.Run(w.connections[i].attempt, own[..j]).terminal.None?
  {
    assert ConnectionHolds(w, i);
    own := ConnectionRunsAlone(w, i, events);
    k := AP.LeaseIsEarned(w.connections[i].attempt, own);
  }
}
