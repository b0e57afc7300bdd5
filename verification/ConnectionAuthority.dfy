/** The connection classes in their own form: objects whose methods update their fields.
  *
  * An attempt's `View` is its state in the protocol, and every method of an attempt takes exactly
  * the protocol's step; draining runs the callback into its authority and its reservation.
  */
module ConnectionAuthority {
  import opened Options
  import AP = AttemptProtocol
  import T = TcpOwnership

  // --- Budgets ---------------------------------------------------------------------------

  class ConnectionBudget {
    const limit: nat
    var count: int

    constructor (limit: nat)
      requires 1 <= limit
      ensures this.limit == limit && count == 0
    {
      this.limit := limit;
      count := 0;
    }

    /** Refuses at the limit and changes nothing; otherwise takes one place. */
    method Reserve() returns (denial: Option<T.Denial>, taken: Reservation?)
      modifies `count
      ensures denial == if old(count) >= limit then Some(T.RuntimeCapacity) else None
      ensures taken == null <==> denial.Some?
      ensures taken == null ==> count == old(count)
      ensures taken != null ==>
                && fresh(taken) && count == old(count) + 1
                && !taken.released && taken.budget == this && taken.scope == null
    {
      if count >= limit { return Some(T.RuntimeCapacity), null; }
      count := count + 1;
      denial := None;
      taken := new Reservation(this, null);
    }
  }

  class SessionScope {
    const budget: ConnectionBudget
    const limit: nat
    var count: int
    var closed: bool

    constructor (budget: ConnectionBudget, limit: nat, aborted: bool)
      requires 1 <= limit <= 8 && budget.limit <= 32
      ensures this.budget == budget && this.limit == limit && count == 0 && closed == aborted
    {
      this.budget := budget;
      this.limit := limit;
      count := 0;
      closed := aborted;
    }

    method CloseAdmission()
      modifies `closed
      ensures closed
    {
      closed := true;
    }

    /** A session place is taken only together with a runtime place. */
    method Reserve(aborted: bool) returns (denial: Option<T.Denial>, taken: Reservation?)
      modifies this, budget`count
      ensures closed == (old(closed) || aborted)
      ensures denial ==
                if closed then Some(T.SessionClosed)
                else if old(count) >= limit then Some(T.SessionCapacity)
                else if old(budget.count) >= budget.limit then Some(T.RuntimeCapacity)
                else None
      ensures taken == null <==> denial.Some?
      ensures taken == null ==> count == old(count) && budget.count == old(budget.count)
      ensures taken != null ==>
                && fresh(taken) && count == old(count) + 1 && budget.count == old(budget.count) + 1
                && !taken.released && taken.budget == budget && taken.scope == this
    {
      if closed || aborted {
        CloseAdmission();
        return Some(T.SessionClosed), null;
      }
      if count >= limit { return Some(T.SessionCapacity), null; }
      var runtime;
      denial, runtime := budget.Reserve();
      if denial.Some? { return denial, null; }
      count := count + 1;
      taken := new Reservation(budget, this);
    }
  }

  /** The release function that `reserve` returns: it gives its place back once, however often called. */
  class Reservation {
    const budget: ConnectionBudget
    const scope: SessionScope?
    var released: bool

    constructor (budget: ConnectionBudget, scope: SessionScope?)
      ensures this.budget == budget && this.scope == scope && !released
    {
      this.budget := budget;
      this.scope := scope;
      released := false;
    }

    method Release()
      modifies `released, budget`count, scope
      ensures released
      ensures scope != null ==> scope.closed == old(scope.closed)
      ensures budget.count == old(budget.count) - (if old(released) then 0 else 1)
      ensures scope != null ==> scope.count == old(scope.count) - (if old(released) then 0 else 1)
    {
      if !released {
        released := true;
        if scope != null { scope.count := scope.count - 1; }
        budget.count := budget.count - 1;
      }
    }
  }

  // --- One attempt -------------------------------------------------------------------------

  class ConnectionAttempt {
    const plan: AP.Plan
    const authority: Authority
    const reservation: Reservation
    var stage: AP.Stage
    var work: AP.Work
    var hasSocket: bool
    var socketClosed: bool
    var destroyed: bool
    var connectHeard: bool
    var terminal: Option<AP.Stop>
    var ready: AP.Ready
    var delivered: bool
    var drained: bool
    var endpoint: Option<AP.Endpoint>
    ghost var evidence: AP.Evidence  // what was established, for the proofs

    ghost function View(): AP.Attempt
      reads this
    {
      AP.Attempt(plan, stage, work, hasSocket, socketClosed, destroyed, connectHeard,
                 terminal, ready, delivered, drained, evidence.(endpoint := endpoint))
    }

    constructor (plan: AP.Plan, authority: Authority, reservation: Reservation)
      ensures View() == AP.Fresh(plan)
      ensures this.authority == authority && this.reservation == reservation
    {
      this.plan := plan;
      this.authority := authority;
      this.reservation := reservation;
      stage := AP.Policy;
      work := AP.AwaitPolicy;
      hasSocket, socketClosed, destroyed, connectHeard := false, true, false, false;
      terminal := None;
      ready := AP.Pending;
      delivered, drained := false, false;
      endpoint := None;
      evidence := AP.Evidence(false, None, None, None, None, None, false);
    }

    /** What the outside sees of one step: nothing, unless this step drained the attempt, and then
      * the place is given back, the attempt leaves its authority's set and `closed` may resolve. */
    twostate predicate OutsideEffect()
      reads this, authority, reservation, reservation.budget, reservation.scope
    {
      if drained && !old(drained) then
        && reservation.released
        && reservation.budget.count == old(reservation.budget.count) - (if old(reservation.released) then 0 else 1)
        && (reservation.scope != null ==>
              reservation.scope.count == old(reservation.scope.count) - (if old(reservation.released) then 0 else 1)
              && reservation.scope.closed == old(reservation.scope.closed))
        && authority.revoked == old(authority.revoked)
        && authority.attempts == old(authority.attempts) - {this}
        && authority.closed == (old(authority.closed) || (authority.revoked && authority.attempts == {}))
      else
        && unchanged(authority)
        && unchanged(reservation)
        && unchanged(reservation.budget)
        && (reservation.scope != null ==> unchanged(reservation.scope))
    }

    method CheckDrained()
      modifies this, authority`attempts, authority`closed, reservation, reservation.budget, reservation.scope
      ensures View() == AP.CheckDrained(old(View())) && OutsideEffect()
    {
      if drained || terminal.None? || !work.Settled? || !socketClosed { return; }
      drained := true;
      reservation.Release();
      authority.Forget(this);
    }

    method Stop(why: AP.Stop)
      modifies this, authority`attempts, authority`closed, reservation, reservation.budget, reservation.scope
      ensures View() == AP.StopWith(old(View()), why) && OutsideEffect()
    {
      if terminal.None? {
        terminal := Some(why);
        if ready.Pending? { ready := AP.Rejected; }
      }
      destroyed := destroyed || hasSocket;
      CheckDrained();
    }

    /** Throws, that is returns `false`, exactly when the attempt is stopped afterwards. */
    method AssertActive(now: int) returns (ok: bool)
      modifies this, authority`attempts, authority`closed, reservation, reservation.budget, reservation.scope
      ensures View() == AP.AssertActive(old(View()), now) && OutsideEffect()
      ensures ok == terminal.None?
      ensures ok ==> View() == old(View())
    {
      if terminal.Some? { return false; }
      var deadline :=
        if delivered || plan.callerDeadline <= plan.setupDeadline then plan.callerDeadline else plan.setupDeadline;
      if now >= deadline {
        Stop(AP.Stop(stage, AP.Deadline));
        return false;
      }
      return true;
    }

    method FailRun(why: AP.Stop)
      modifies this, authority`attempts, authority`closed, reservation, reservation.budget, reservation.scope
      ensures View() == AP.FailRun(old(View()), why) && OutsideEffect()
    {
      Stop(why);
      work := AP.Settled;
      CheckDrained();
    }

    method Suspend(next: AP.Work)
      modifies this, authority`attempts, authority`closed, reservation, reservation.budget, reservation.scope
      ensures View() == AP.Suspend(old(View()), next) && OutsideEffect()
    {
      if terminal.Some? { FailRun(terminal.value); } else { work := next; }
    }

    method Begin(callerAborted: bool, now: int)
      modifies this, authority`attempts, authority`closed, reservation, reservation.budget, reservation.scope
      ensures View() == AP.Begin(old(View()), callerAborted, now) && OutsideEffect()
    {
      if callerAborted { Stop(AP.Stop(stage, AP.CallerCancelled)); }
      stage := AP.Policy;
      var _ := AssertActive(now);
      Suspend(AP.AwaitPolicy);
    }

    method PolicyReturns(allowed: bool, t0: int, t1: int, t2: int)
      modifies this, authority`attempts, authority`closed, reservation, reservation.budget, reservation.scope
      ensures View() == AP.PolicyReturns(old(View()), allowed, t0, t1, t2) && OutsideEffect()
    {
      if !allowed {
        FailRun(AP.Stop(AP.Policy, AP.CallbackFailure));
        return;
      }
      var ok := AssertActive(t0);
      if !ok {
        FailRun(terminal.value);
        return;
      }
      evidence := evidence.(authorized := true);
      Resolve(t1, t2);
    }

    method Resolve(t1: int, t2: int)
      modifies this, authority`attempts, authority`closed, reservation, reservation.budget, reservation.scope
      ensures View() == AP.Resolve(old(View()), t1, t2) && OutsideEffect()
    {
      if plan.destination.ip.Some? {
        var ip := plan.destination.ip.value;
        AnswersArrive(AP.Answers([AP.RawAnswer(Some(ip), AP.FamilyOf(ip))]), t1, t2);
      } else {
        stage := AP.Dns;
        var _ := AssertActive(t1);
        Suspend(AP.AwaitDns);
      }
    }

    method DnsReturns(answers: AP.Resolution, t0: int, t1: int)
      modifies this, authority`attempts, authority`closed, reservation, reservation.budget, reservation.scope
      ensures View() == AP.DnsReturns(old(View()), answers, t0, t1) && OutsideEffect()
    {
      if answers.ResolveFailed? {
        FailRun(AP.Stop(AP.Dns, AP.CallbackFailure));
      } else {
        AnswersArrive(answers, t0, t1);
      }
    }

    method AnswersArrive(answers: AP.Resolution, t0: int, t1: int)
      modifies this, authority`attempts, authority`closed, reservation, reservation.budget, reservation.scope
      ensures View() == AP.AnswersArrive(old(View()), answers, t0, t1) && OutsideEffect()
    {
      var ok := AssertActive(t0);
      if !ok {
        FailRun(terminal.value);
      } else if !AP.Acceptable(answers, plan.maxDnsAnswers) {
        FailRun(AP.Stop(AP.Dns, AP.InvalidAnswers));
      } else {
        AcceptAnswers(answers.list, t1);
      }
    }

    method AcceptAnswers(answers: seq<AP.RawAnswer>, now: int)
      requires AP.Acceptable(AP.Answers(answers), plan.maxDnsAnswers)
      modifies this, authority`attempts, authority`closed, reservation, reservation.budget, reservation.scope
      ensures View() == AP.AcceptAnswers(old(View()), answers, now) && OutsideEffect()
    {
      evidence := evidence.(answers := Some(answers));
      stage := AP.AddressPolicy;
      var _ := AssertActive(now);
      Suspend(AP.AwaitAddresses(AP.Validated(answers)));
    }

    method AddressesReturn(allowed: bool, socketMade: bool, t0: int, t1: int)
      requires work.AwaitAddresses?
      modifies this, authority`attempts, authority`closed, reservation, reservation.budget, reservation.scope
      ensures View() == AP.AddressesReturn(old(View()), allowed, socketMade, t0, t1) && OutsideEffect()
    {
      var addresses := work.addresses;
      if !allowed {
        FailRun(AP.Stop(AP.AddressPolicy, AP.CallbackFailure));
        return;
      }
      var ok := AssertActive(t0);
      if !ok {
        FailRun(terminal.value);
      } else if |addresses| == 0 {
        FailRun(AP.Stop(AP.Dns, AP.InvalidAnswers));
      } else {
        Choose(addresses);
        OpenSocket(socketMade, t1);
      }
    }

    method Choose(addresses: seq<AP.Literal>)
      requires |addresses| > 0
      modifies `endpoint, `evidence, `stage
      ensures View() == AP.Choose(old(View()), addresses)
    {
      endpoint := Some(AP.Endpoint(addresses[0], plan.destination.port));
      evidence := evidence.(allowed := Some(addresses));
      stage := AP.Tcp;
    }

    method OpenSocket(socketMade: bool, now: int)
      modifies this, authority`attempts, authority`closed, reservation, reservation.budget, reservation.scope
      ensures View() == AP.OpenSocket(old(View()), socketMade, now) && OutsideEffect()
    {
      if !socketMade {
        FailRun(AP.Stop(AP.Tcp, AP.TransportFailure));
      } else {
        hasSocket, socketClosed := true, false;
        Dial(now);
      }
    }

    method Dial(now: int)
      modifies this, authority`attempts, authority`closed, reservation, reservation.budget, reservation.scope
      ensures View() == AP.Dial(old(View()), now) && OutsideEffect()
    {
      var ok := AssertActive(now);
      if !ok {
        FailRun(terminal.value);
      } else {
        work := AP.Dialing;
        evidence := evidence.(dialed := endpoint);
      }
    }

    method DialReturns(threw: bool)
      modifies this, authority`attempts, authority`closed, reservation, reservation.budget, reservation.scope
      ensures View() == AP.DialReturns(old(View()), threw) && OutsideEffect()
    {
      if threw {
        FailRun(AP.Stop(stage, AP.TransportFailure));
      } else {
        work := AP.Settled;
        CheckDrained();
      }
    }

    method OnConnect(peer: Option<AP.Literal>, peerPort: nat, t0: int, t1: int)
      modifies this, authority`attempts, authority`closed, reservation, reservation.budget, reservation.scope
      ensures View() == AP.SocketConnects(old(View()), peer, peerPort, t0, t1) && OutsideEffect()
    {
      connectHeard := true;
      ghost var heard := View();
      assert heard == old(View()).(connectHeard := true);
      var ok := AssertOrStop(t0);
      if ok {
        assert View() == heard;
        MeetPeer(peer, peerPort, t1);
      }
    }

    /** What a listener does with a check that throws: stop, with the reason thrown. */
    method AssertOrStop(now: int) returns (ok: bool)
      modifies this, authority`attempts, authority`closed, reservation, reservation.budget, reservation.scope
      ensures var a := AP.AssertActive(old(View()), now);
        View() == if a.terminal.Some? then AP.StopWith(a, a.terminal.value) else a
      ensures OutsideEffect() && (ok <==> AP.AssertActive(old(View()), now).terminal.None?)
      ensures ok ==> View() == old(View())
    {
      ok := AssertActive(now);
      if !ok { Stop(terminal.value); }
    }

    method MeetPeer(peer: Option<AP.Literal>, peerPort: nat, now: int)
      modifies this, authority`attempts, authority`closed, reservation, reservation.budget, reservation.scope
      ensures View() == AP.MeetPeer(old(View()), peer, peerPort, now) && OutsideEffect()
    {
      if AP.SameEndpoint(peer, peerPort, endpoint) {
        Deliver(AP.Endpoint(peer.value, peerPort), now);
      } else {
        Stop(AP.Stop(AP.Tcp, AP.PeerMismatch));
      }
    }

    method Deliver(peer: AP.Endpoint, now: int)
      modifies this, authority`attempts, authority`closed, reservation, reservation.budget, reservation.scope
      ensures View() == AP.Deliver(old(View()), peer, now) && OutsideEffect()
    {
      var ok := AssertOrStop(now);
      if ok {
        delivered := true;
        stage := AP.Lease;
        ready := AP.Resolved;
        evidence := evidence.(peer := Some(peer));
      }
    }

    method OnClose()
      modifies this, authority`attempts, authority`closed, reservation, reservation.budget, reservation.scope
      ensures View() == AP.SocketCloses(old(View())) && OutsideEffect()
    {
      socketClosed := true;
      if terminal.None? { Stop(AP.Stop(stage, AP.SocketClosed)); }
      CheckDrained();
    }

    method ResumeConnect(now: int) returns (lease: bool)
      requires !ready.Pending?
      modifies this, authority`attempts, authority`closed, reservation, reservation.budget, reservation.scope
      ensures View() == AP.HandOver(old(View()), now) && OutsideEffect()
      ensures lease <==> ready.Resolved? && terminal.None?
    {
      var active := AssertActive(now);
      lease := active && ready.Resolved?;
      if lease { evidence := evidence.(handedOver := true); }
    }

    /** Every handler takes the protocol's step; one that is not enabled is not called. */
    method Handle(e: AP.Event)
      requires AP.Enabled(View(), e)
      modifies this, authority`attempts, authority`closed, reservation, reservation.budget, reservation.scope
      ensures View() == AP.Next(old(View()), e) && OutsideEffect()
    {
      match e
      case PolicyDone(allowed, t0, t1, t2) => PolicyReturns(allowed, t0, t1, t2);
      case DnsDone(answers, t0, t1) => DnsReturns(answers, t0, t1);
      case AddressesDone(allowed, made, t0, t1) => AddressesReturn(allowed, made, t0, t1);
      case DialDone(threw) => DialReturns(threw);
      case SocketConnected(peer, port, t0, t1) => OnConnect(peer, port, t0, t1);
      case SocketErrored => Stop(AP.Stop(stage, AP.TransportFailure));
      case SocketHasClosed => OnClose();
      case CallerAborts => Stop(AP.Stop(stage, AP.CallerCancelled));
      case TimerFires(now) => var _ := AssertActive(now);
      case LeaseCloses => Stop(AP.Stop(AP.Lease, AP.LeaseClosed));
      case AuthorityRevokes => Stop(AP.Stop(AP.Admission, AP.AuthorityRevoked));
      case ConnectResumes(now) => var _ := ResumeConnect(now);
    }
  }

  // --- One authority -------------------------------------------------------------------------

  class Authority {
    const admission: SessionScope
    const maxConnections: nat
    const maxDnsAnswers: nat
    const setupTimeout: nat
    var attempts: set<ConnectionAttempt>
    var revoked: bool
    var closed: bool

    ghost predicate Holds(a: ConnectionAttempt)
      reads a, a.reservation
    {
      && a.authority == this
      && a.reservation.budget == admission.budget
      && a.reservation.scope == admission
      && !a.reservation.released
      && AP.Inv(a.View())
      && !a.drained
    }

    /** Every attempt in the set is this authority's, unfinished, and holds its own place. */
    ghost predicate Valid()
      reads this, attempts, set a | a in attempts :: a.reservation
    {
      && (forall a :: a in attempts ==> Holds(a))
      && (forall a, b :: a in attempts && b in attempts && a != b ==> a.reservation != b.reservation)
      && (closed <==> revoked && attempts == {})
    }

    constructor (admission: SessionScope, maxConnections: nat, maxDnsAnswers: nat, setupTimeout: nat)
      requires 1 <= maxConnections && 1 <= maxDnsAnswers <= 16 && 1 <= setupTimeout <= 10_000
      ensures Valid() && attempts == {} && !revoked
      ensures this.admission == admission && this.maxConnections == maxConnections
      ensures this.maxDnsAnswers == maxDnsAnswers && this.setupTimeout == setupTimeout
    {
      this.admission := admission;
      this.maxConnections := maxConnections;
      this.maxDnsAnswers := maxDnsAnswers;
      this.setupTimeout := setupTimeout;
      attempts, revoked, closed := {}, false, false;
    }

    method Forget(attempt: ConnectionAttempt)
      modifies `attempts, `closed
      ensures attempts == old(attempts) - {attempt}
      ensures closed == (old(closed) || (revoked && attempts == {}))
    {
      attempts := attempts - {attempt};
      CheckDrained();
    }

    method CheckDrained()
      modifies `closed
      ensures closed == (old(closed) || (revoked && attempts == {}))
    {
      if revoked && attempts == {} { closed := true; }
    }

    /** Which check refuses first: the authority's own, then its session's, then the runtime's. */
    function FirstDenial(call: T.ConnectCall): Option<T.Denial>
      reads this, admission, admission.budget
    {
      if revoked then Some(T.Revoked)
      else if call.aborted then Some(T.CallerCancelled)
      else if call.deadline.None? || call.deadline.value - call.now > T.MAX_TIMER_MS then Some(T.InvalidDeadline)
      else if call.deadline.value <= call.now then Some(T.DeadlinePassed)
      else if call.destination.None? then Some(T.InvalidDestination)
      else if |attempts| >= maxConnections then Some(T.AuthorityCapacity)
      else PlaceDenial()
    }

    /** Admits one attempt and starts it, or refuses and takes no place.  An attempt that fails at
      * its first check has already drained: its place is back and it is not in the set. */
    method Connect(call: T.ConnectCall) returns (denial: Option<T.Denial>, attempt: ConnectionAttempt?)
      requires Valid()
      modifies this, admission, admission.budget
      ensures Valid()
      ensures revoked == old(revoked)
      ensures denial == old(FirstDenial(call))
      ensures attempt == null <==> denial.Some?
      ensures attempt == null ==> attempts == old(attempts)
      ensures attempt != null ==>
                && fresh(attempt)
                && call.destination.Some? && call.deadline.Some?
                && attempt.View() == AP.Begin(
                     AP.Fresh(AP.Plan(call.destination.value, call.deadline.value,
                                      call.startedAt + setupTimeout, maxDnsAnswers)),
                     call.lateAbort, call.firstCheckAt)
                && attempts == old(attempts) + (if attempt.drained then {} else {attempt})
      ensures var taken := if attempt == null || attempt.drained then 0 else 1;
              && admission.count == old(admission.count) + taken
              && admission.budget.count == old(admission.budget.count) + taken
    {
      attempt := null;
      denial := Precheck(call);
      if denial.Some? { return; }
      var plan := AP.Plan(call.destination.value, call.deadline.value, call.startedAt + setupTimeout, maxDnsAnswers);
      denial, attempt := Enter(plan, call.lateAbort, call.firstCheckAt);
    }

    /** Take a place and start, once the authority's own checks have passed. */
    method Enter(plan: AP.Plan, lateAbort: bool, firstCheckAt: int)
      returns (denial: Option<T.Denial>, attempt: ConnectionAttempt?)
      requires Valid() && !revoked
      modifies this, admission, admission.budget
      ensures Valid() && !revoked
      ensures denial == old(PlaceDenial())
      ensures attempt == null <==> denial.Some?
      ensures attempt == null ==> attempts == old(attempts)
      ensures attempt != null ==>
                && fresh(attempt)
                && attempt.View() == AP.Begin(AP.Fresh(plan), lateAbort, firstCheckAt)
                && attempts == old(attempts) + (if attempt.drained then {} else {attempt})
      ensures var taken := if attempt == null || attempt.drained then 0 else 1;
              && admission.count == old(admission.count) + taken
              && admission.budget.count == old(admission.budget.count) + taken
    {
      denial, attempt := Admit(plan);
      if denial.None? {
        AP.BeginKeepsInv(plan, lateAbort, firstCheckAt);
        attempt.Begin(lateAbort, firstCheckAt);
      }
    }

    /** Why no place is free, if none is. */
    function PlaceDenial(): Option<T.Denial>
      reads this, admission, admission.budget
    {
      if admission.closed then Some(T.SessionClosed)
      else if admission.count >= admission.limit then Some(T.SessionCapacity)
      else if admission.budget.count >= admission.budget.limit then Some(T.RuntimeCapacity)
      else None
    }

    /** The authority's own checks, before any place is asked for. */
    method Precheck(call: T.ConnectCall) returns (denial: Option<T.Denial>)
      ensures denial.Some? ==> denial == FirstDenial(call)
      ensures denial.None? ==> !revoked && call.destination.Some? && call.deadline.Some?
      ensures denial.None? ==> FirstDenial(call) == PlaceDenial()
    {
      if revoked { return Some(T.Revoked); }
      if call.aborted { return Some(T.CallerCancelled); }
      if call.deadline.None? || call.deadline.value - call.now > T.MAX_TIMER_MS { return Some(T.InvalidDeadline); }
      if call.deadline.value <= call.now { return Some(T.DeadlinePassed); }
      if call.destination.None? { return Some(T.InvalidDestination); }
      if |attempts| >= maxConnections { return Some(T.AuthorityCapacity); }
      return None;
    }

    method Admit(plan: AP.Plan) returns (denial: Option<T.Denial>, attempt: ConnectionAttempt?)
      requires Valid() && !revoked
      modifies this, admission, admission.budget
      ensures Valid() && !revoked
      ensures denial == old(PlaceDenial())
      ensures attempt == null <==> denial.Some?
      ensures attempt == null ==>
                attempts == old(attempts)
                && admission.count == old(admission.count) && admission.budget.count == old(admission.budget.count)
      ensures attempt != null ==>
                && fresh(attempt) && fresh(attempt.reservation)
                && attempt.View() == AP.Fresh(plan)
                && attempts == old(attempts) + {attempt}
                && Holds(attempt)
                && admission.count == old(admission.count) + 1
                && admission.budget.count == old(admission.budget.count) + 1
    {
      attempt := null;
      var release;
      denial, release := admission.Reserve(false);
      if denial.None? { attempt := Enrol(plan, release); }
    }

    /** The admitted attempt joins the set, with its own place. */
    method Enrol(plan: AP.Plan, release: Reservation) returns (attempt: ConnectionAttempt)
      requires Valid() && !revoked
      requires release.budget == admission.budget && release.scope == admission && !release.released
      requires forall a :: a in attempts ==> a.reservation != release
      modifies `attempts
      ensures Valid() && fresh(attempt) && attempt.reservation == release
      ensures attempt.View() == AP.Fresh(plan)
      ensures attempts == old(attempts) + {attempt} && Holds(attempt)
    {
      attempt := new ConnectionAttempt(plan, this, release);
      attempts := attempts + {attempt};
    }

    /** Stops every attempt in the set, and removes none: each still waits for its run or its socket. */
    method Revoke()
      requires Valid()
      modifies this, attempts,
               (set a | a in attempts :: a.reservation), admission, admission.budget
      ensures Valid() && revoked
      ensures attempts == old(attempts)
      ensures admission.count == old(admission.count) && admission.budget.count == old(admission.budget.count)
      ensures forall a :: a in attempts ==>
                a.View() == if old(revoked) then old(a.View()) else AP.Next(old(a.View()), AP.AuthorityRevokes)
    {
      if revoked { return; }
      revoked := true;
      StopAll();
      CheckDrained();
    }

    method StopAll()
      requires revoked && !closed
      requires forall a :: a in attempts ==> Holds(a)
      modifies this, attempts,
               (set a | a in attempts :: a.reservation), admission, admission.budget
      ensures revoked && !closed && attempts == old(attempts)
      ensures unchanged(admission) && unchanged(admission.budget)
      ensures forall a :: a in attempts ==> Holds(a) && StoppedSince(a)
    {
      var todo := attempts;
      ghost var done: set<ConnectionAttempt> := {};
      while todo != {}
        invariant todo + done == attempts && todo !! done
        invariant unchanged(this) && unchanged(admission) && unchanged(admission.budget)
        invariant forall a :: a in todo ==> Holds(a) && unchanged(a)
        invariant forall a :: a in done ==> Holds(a) && StoppedSince(a)
        decreases todo
      {
        var a :| a in todo;
        StopMember(a);
        todo, done := todo - {a}, done + {a};
      }
      assert done == attempts;
    }

    twostate predicate StoppedSince(a: ConnectionAttempt)
      reads a
    {
      a.View() == AP.Next(old(a.View()), AP.AuthorityRevokes)
    }

    /** A member does not drain on the spot: its run or its socket is outstanding. */
    method StopMember(a: ConnectionAttempt)
      requires a in attempts && Holds(a)
      modifies this, a, a.reservation, admission, admission.budget
      ensures unchanged(this) && unchanged(a.reservation) && unchanged(admission) && unchanged(admission.budget)
      ensures Holds(a) && a.View() == AP.Next(old(a.View()), AP.AuthorityRevokes)
    {
      AP.StopKeepsInv(a.View(), AP.Stop(AP.Admission, AP.AuthorityRevoked));
      a.Stop(AP.Stop(AP.Admission, AP.AuthorityRevoked));
    }
  }
}
