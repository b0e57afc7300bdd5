/** The life of one TCP connection attempt, as a protocol over its atomic steps.
  *
  * A step is what runs between two suspension points: a callback returns and its
  * continuation runs, a socket event or a timer fires, the caller aborts.  The
  * environment picks the order, the callback answers and the clock readings.
  */
module AttemptProtocol {
  import opened Options

  // --- Addresses -----------------------------------------------------------------

  datatype Literal = V4(bits: nat) | V6(bits: nat)

  /** The peer check treats an IPv4 address and its IPv4-mapped IPv6 form as one host. */
  function Canonical(address: Literal): Literal {
    match address
    case V4(_) => address
    case V6(bits) =>
      if bits / 0x1_0000_0000 == 0xFFFF then V4(bits % 0x1_0000_0000) else address
  }

  function FamilyOf(address: Literal): int {
    if address.V4? then 4 else 6
  }

  datatype Endpoint = Endpoint(host: Literal, port: nat)

  /** A destination that passed admission; `ip` is set when the host name is an address. */
  datatype Destination = Destination(hostname: string, ip: Option<Literal>, port: nat)

  /** One resolver answer as received: its address text parsed, and the family it claims. */
  datatype RawAnswer = RawAnswer(parsed: Option<Literal>, family: int)

  datatype Resolution = ResolveFailed | NotAnArray | Answers(list: seq<RawAnswer>)

  predicate WellFormed(answer: RawAnswer) {
    answer.parsed.Some? && FamilyOf(answer.parsed.value) == answer.family
  }

  predicate Acceptable(answers: Resolution, maxDnsAnswers: nat) {
    && answers.Answers?
    && 1 <= |answers.list| <= maxDnsAnswers
    && forall i :: 0 <= i < |answers.list| ==> WellFormed(answers.list[i])
  }

  function Validated(answers: seq<RawAnswer>): (addresses: seq<Literal>)
    requires forall i :: 0 <= i < |answers| ==> WellFormed(answers[i])
  {
    seq(|answers|, i requires 0 <= i < |answers| => assert WellFormed(answers[i]); answers[i].parsed.value)
  }

  // --- State ---------------------------------------------------------------------

  datatype Stage = Admission | Policy | Dns | AddressPolicy | Tcp | Lease

  datatype Reason =
    | CallerCancelled | Deadline | CallbackFailure | InvalidAnswers
    | TransportFailure | PeerMismatch | SocketClosed | LeaseClosed | AuthorityRevoked

  datatype Stop = Stop(stage: Stage, reason: Reason)

  /** Where the attempt's own run is suspended. */
  datatype Work =
    | AwaitPolicy
    | AwaitDns
    | AwaitAddresses(addresses: seq<Literal>)
    | Dialing
    | Settled

  datatype Ready = Pending | Resolved | Rejected

  /** What the run has established so far; nothing in it is ever taken back. */
  datatype Evidence = Evidence(
    authorized: bool,
    answers: Option<seq<RawAnswer>>,
    allowed: Option<seq<Literal>>,
    endpoint: Option<Endpoint>,
    dialed: Option<Endpoint>,
    peer: Option<Endpoint>,
    handedOver: bool)

  /** What was fixed when the attempt was admitted. */
  datatype Plan = Plan(destination: Destination, callerDeadline: int, setupDeadline: int, maxDnsAnswers: nat)

  datatype Attempt = Attempt(
    plan: Plan,
    stage: Stage,
    work: Work,
    hasSocket: bool,
    socketClosed: bool,
    destroyed: bool,
    connectHeard: bool,
    terminal: Option<Stop>,
    ready: Ready,
    delivered: bool,
    drained: bool,
    evidence: Evidence)

  function Fresh(plan: Plan): Attempt {
    Attempt(plan, Policy, AwaitPolicy, false, true, false, false, None, Pending, false, false,
            Evidence(false, None, None, None, None, None, false))
  }

  // --- Building blocks -----------------------------------------------------------

  function CheckDrained(a: Attempt): Attempt {
    if !a.drained && a.terminal.Some? && a.work.Settled? && a.socketClosed
    then a.(drained := true)
    else a
  }

  /** The first stop fixes the reason; every stop destroys the socket. */
  function StopWith(a: Attempt, why: Stop): Attempt {
    var stopped :=
      if a.terminal.Some? then a
      else a.(terminal := Some(why),
              ready := if a.ready.Pending? then Rejected else a.ready);
    CheckDrained(stopped.(destroyed := stopped.destroyed || stopped.hasSocket))
  }

  function ActiveDeadline(a: Attempt): int {
    if a.delivered || a.plan.callerDeadline <= a.plan.setupDeadline then a.plan.callerDeadline else a.plan.setupDeadline
  }

  /** Afterwards the attempt is still running, or it is stopped and the caller of this check throws. */
  function AssertActive(a: Attempt, now: int): Attempt {
    if a.terminal.None? && now >= ActiveDeadline(a) then StopWith(a, Stop(a.stage, Deadline)) else a
  }

  /** The run's error path: stop, then settle whatever the reason was. */
  function FailRun(a: Attempt, why: Stop): Attempt {
    CheckDrained(StopWith(a, why).(work := Settled))
  }

  /** Continue the run only while the attempt is still active. */
  function Suspend(a: Attempt, work: Work): Attempt {
    if a.terminal.Some? then FailRun(a, a.terminal.value) else a.(work := work)
  }

  // --- The run, one suspension to the next ----------------------------------------

  function Begin(a: Attempt, callerAborted: bool, now: int): Attempt {
    var started := if callerAborted then StopWith(a, Stop(a.stage, CallerCancelled)) else a;
    Suspend(AssertActive(started.(stage := Policy), now), AwaitPolicy)
  }

  function PolicyReturns(a: Attempt, allowed: bool, t0: int, t1: int, t2: int): Attempt {
    var active := AssertActive(a, t0);
    if !allowed then FailRun(a, Stop(Policy, CallbackFailure))
    else if active.terminal.Some? then FailRun(active, active.terminal.value)
    else Resolve(active.(evidence := active.evidence.(authorized := true)), t1, t2)
  }

  /** An address is its own only answer; a name asks the resolver. */
  function Resolve(a: Attempt, t1: int, t2: int): Attempt {
    if a.plan.destination.ip.Some? then
      var ip := a.plan.destination.ip.value;
      AnswersArrive(a, Answers([RawAnswer(Some(ip), FamilyOf(ip))]), t1, t2)
    else
      Suspend(AssertActive(a.(stage := Dns), t1), AwaitDns)
  }

  function DnsReturns(a: Attempt, answers: Resolution, t0: int, t1: int): Attempt {
    if answers.ResolveFailed? then FailRun(a, Stop(Dns, CallbackFailure))
    else AnswersArrive(a, answers, t0, t1)
  }

  function AnswersArrive(a: Attempt, answers: Resolution, t0: int, t1: int): Attempt {
    var active := AssertActive(a, t0);
    if active.terminal.Some? then FailRun(active, active.terminal.value)
    else if !Acceptable(answers, a.plan.maxDnsAnswers) then FailRun(active, Stop(Dns, InvalidAnswers))
    else AcceptAnswers(active, answers.list, t1)
  }

  function AcceptAnswers(a: Attempt, answers: seq<RawAnswer>, now: int): Attempt
    requires Acceptable(Answers(answers), a.plan.maxDnsAnswers)
  {
    var answered := a.(evidence := a.evidence.(answers := Some(answers)), stage := AddressPolicy);
    Suspend(AssertActive(answered, now), AwaitAddresses(Validated(answers)))
  }

  function AddressesReturn(a: Attempt, allowed: bool, socketMade: bool, t0: int, t1: int): Attempt
    requires a.work.AwaitAddresses?
  {
    var addresses := a.work.addresses;
    var active := AssertActive(a, t0);
    if !allowed then FailRun(a, Stop(AddressPolicy, CallbackFailure))
    else if active.terminal.Some? then FailRun(active, active.terminal.value)
    else if |addresses| == 0 then FailRun(active, Stop(Dns, InvalidAnswers))
    else OpenSocket(Choose(active, addresses), socketMade, t1)
  }

  /** The first address of the allowed list is the endpoint; there is no fallback to another. */
  function Choose(a: Attempt, addresses: seq<Literal>): Attempt
    requires |addresses| > 0
  {
    var endpoint := Endpoint(addresses[0], a.plan.destination.port);
    a.(stage := Tcp, evidence := a.evidence.(allowed := Some(addresses), endpoint := Some(endpoint)))
  }

  function OpenSocket(a: Attempt, socketMade: bool, now: int): Attempt {
    if !socketMade then FailRun(a, Stop(Tcp, TransportFailure))
    else Dial(a.(hasSocket := true, socketClosed := false), now)
  }

  function Dial(a: Attempt, now: int): Attempt {
    var dialing := AssertActive(a, now);
    if dialing.terminal.Some? then FailRun(dialing, dialing.terminal.value)
    else dialing.(work := Dialing, evidence := dialing.evidence.(dialed := dialing.evidence.endpoint))
  }

  function DialReturns(a: Attempt, threw: bool): Attempt {
    if threw then FailRun(a, Stop(a.stage, TransportFailure))
    else CheckDrained(a.(work := Settled))
  }

  // --- Socket, timer and caller events ---------------------------------------------

  predicate SameEndpoint(peer: Option<Literal>, peerPort: nat, endpoint: Option<Endpoint>) {
    && peer.Some?
    && endpoint.Some?
    && peerPort == endpoint.value.port
    && Canonical(peer.value) == Canonical(endpoint.value.host)
  }

  function SocketConnects(a: Attempt, peer: Option<Literal>, peerPort: nat, t0: int, t1: int): Attempt {
    var heard := AssertActive(a.(connectHeard := true), t0);
    if heard.terminal.Some? then StopWith(heard, heard.terminal.value)
    else MeetPeer(heard, peer, peerPort, t1)
  }

  function MeetPeer(a: Attempt, peer: Option<Literal>, peerPort: nat, now: int): Attempt {
    if !SameEndpoint(peer, peerPort, a.evidence.endpoint) then StopWith(a, Stop(Tcp, PeerMismatch))
    else Deliver(a, Endpoint(peer.value, peerPort), now)
  }

  function Deliver(a: Attempt, peer: Endpoint, now: int): Attempt {
    var checked := AssertActive(a, now);
    if checked.terminal.Some? then StopWith(checked, checked.terminal.value)
    else checked.(delivered := true, stage := Lease, ready := Resolved,
                  evidence := checked.evidence.(peer := Some(peer)))
  }

  function SocketCloses(a: Attempt): Attempt {
    var closed := a.(socketClosed := true);
    CheckDrained(if closed.terminal.Some? then closed else StopWith(closed, Stop(a.stage, SocketClosed)))
  }

  /** The continuation of `connect` after `ready`: it returns the lease or throws. */
  function HandOver(a: Attempt, now: int): Attempt {
    var checked := AssertActive(a, now);
    if checked.ready.Resolved? && checked.terminal.None?
    then checked.(evidence := checked.evidence.(handedOver := true))
    else checked
  }

  // --- One step ----------------------------------------------------------------------

  datatype Event =
    | PolicyDone(allowed: bool, t0: int, t1: int, t2: int)
    | DnsDone(answers: Resolution, t0: int, t1: int)
    | AddressesDone(allowed: bool, socketMade: bool, t0: int, t1: int)
    | DialDone(threw: bool)
    | SocketConnected(peer: Option<Literal>, peerPort: nat, t0: int, t1: int)
    | SocketErrored
    | SocketHasClosed
    | CallerAborts
    | TimerFires(now: int)
    | LeaseCloses
    | AuthorityRevokes
    | ConnectResumes(now: int)

  /** The events the environment may deliver now.  A listener hears nothing once removed. */
  predicate Enabled(a: Attempt, e: Event) {
    match e
    case PolicyDone(_, _, _, _) => a.work.AwaitPolicy?
    case DnsDone(_, _, _) => a.work.AwaitDns?
    case AddressesDone(_, _, _, _) => a.work.AwaitAddresses?
    case DialDone(_) => a.work.Dialing?
    case SocketConnected(_, _, _, _) => a.hasSocket && !a.connectHeard && !a.drained
    case SocketErrored => a.hasSocket && !a.drained
    case SocketHasClosed => a.hasSocket && !a.socketClosed && !a.drained
    case CallerAborts => a.terminal.None?
    case TimerFires(_) => a.terminal.None?
    case LeaseCloses => a.delivered
    case AuthorityRevokes => true
    case ConnectResumes(_) => !a.ready.Pending?
  }

  function Next(a: Attempt, e: Event): Attempt {
    if !Enabled(a, e) then a else
    match e
    case PolicyDone(allowed, t0, t1, t2) => PolicyReturns(a, allowed, t0, t1, t2)
    case DnsDone(answers, t0, t1) => DnsReturns(a, answers, t0, t1)
    case AddressesDone(allowed, made, t0, t1) => AddressesReturn(a, allowed, made, t0, t1)
    case DialDone(threw) => DialReturns(a, threw)
    case SocketConnected(peer, port, t0, t1) => SocketConnects(a, peer, port, t0, t1)
    case SocketErrored => StopWith(a, Stop(a.stage, TransportFailure))
    case SocketHasClosed => SocketCloses(a)
    case CallerAborts => StopWith(a, Stop(a.stage, CallerCancelled))
    case TimerFires(now) => AssertActive(a, now)
    case LeaseCloses => StopWith(a, Stop(Lease, LeaseClosed))
    case AuthorityRevokes => StopWith(a, Stop(Admission, AuthorityRevoked))
    case ConnectResumes(now) => HandOver(a, now)
  }

  function Run(a: Attempt, events: seq<Event>): Attempt
    decreases |events|
  {
    if events == [] then a else Run(Next(a, events[0]), events[1..])
  }

  // --- What every step keeps --------------------------------------------------------

  /** How the flags hang together: drained, ready and delivered have no other meaning. */
  predicate FlagsAgree(a: Attempt) {
    && (a.drained <==> a.terminal.Some? && a.work.Settled? && a.socketClosed)
    && (a.ready.Resolved? <==> a.delivered)
    && (a.ready.Rejected? <==> a.terminal.Some? && !a.delivered)
    && (a.hasSocket ==> a.evidence.endpoint.Some? && (a.terminal.Some? ==> a.destroyed))
    && (!a.hasSocket ==> a.socketClosed && !a.destroyed && !a.delivered)
    && (a.terminal.None? ==> (a.hasSocket <==> a.work.Dialing? || a.work.Settled?))
    && (a.terminal.None? && a.hasSocket ==> !a.socketClosed)
  }

  /** Between 1 and the maximum of well-formed answers; an address is its own only answer. */
  predicate AnsweredLawfully(a: Attempt) {
    && a.evidence.authorized
    && a.evidence.answers.Some?
    && Acceptable(Answers(a.evidence.answers.value), a.plan.maxDnsAnswers)
    && (a.plan.destination.ip.Some? ==>
          a.evidence.answers.value == [RawAnswer(a.plan.destination.ip, FamilyOf(a.plan.destination.ip.value))])
  }

  /** The whole answer list passed the address policy, and the socket is for its first address. */
  predicate OpenedLawfully(a: Attempt) {
    && AnsweredLawfully(a)
    && a.evidence.allowed == Some(Validated(a.evidence.answers.value))
    && a.evidence.endpoint == Some(Endpoint(a.evidence.allowed.value[0], a.plan.destination.port))
  }

  predicate DeliveredLawfully(a: Attempt) {
    && OpenedLawfully(a)
    && a.evidence.dialed == a.evidence.endpoint
    && a.evidence.peer.Some?
    && SameEndpoint(Some(a.evidence.peer.value.host), a.evidence.peer.value.port, a.evidence.endpoint)
  }

  predicate EvidenceLawful(a: Attempt) {
    && (a.hasSocket ==> OpenedLawfully(a))
    && (a.evidence.dialed.Some? ==> a.hasSocket && a.evidence.dialed == a.evidence.endpoint)
    && (a.delivered ==> DeliveredLawfully(a))
    && (a.evidence.handedOver ==> a.delivered)
    && (a.terminal.None? && a.hasSocket ==> a.evidence.dialed.Some?)
    && (a.work.AwaitDns? ==> a.evidence.authorized && a.plan.destination.ip.None?)
    && (a.work.AwaitAddresses? ==>
          AnsweredLawfully(a) && a.work.addresses == Validated(a.evidence.answers.value))
  }

  predicate Inv(a: Attempt) {
    FlagsAgree(a) && EvidenceLawful(a)
  }

  /** What no step takes back: a stop, a settled `ready`, a drain, anything established. */
  predicate Follows(a: Attempt, b: Attempt) {
    && b.plan == a.plan
    && (a.terminal.Some? ==>
          && b.terminal == a.terminal
          && b.hasSocket == a.hasSocket
          && b.delivered == a.delivered
          && b.evidence.handedOver == a.evidence.handedOver)
    && (!a.ready.Pending? ==> b.ready == a.ready)
    && (a.drained ==> b.drained)
    && (a.hasSocket ==> b.hasSocket && b.evidence.endpoint == a.evidence.endpoint)
    && (a.hasSocket && a.socketClosed ==> b.socketClosed)
    && (a.evidence.handedOver ==> b.evidence.handedOver)
  }

  // One lemma per building block, then one per continuation.

  lemma StopKeepsInv(a: Attempt, why: Stop)
    requires Inv(a)
    ensures var b := StopWith(a, why);
            && Inv(b) && Follows(a, b)
            && b.terminal.Some? && b.evidence == a.evidence
            && b.hasSocket == a.hasSocket && b.delivered == a.delivered
  {
  }

  lemma ActiveKeepsInv(a: Attempt, now: int)
    requires Inv(a)
    ensures var b := AssertActive(a, now);
            && Inv(b) && Follows(a, b)
            && (b.terminal.None? ==> b == a)
            && b.evidence == a.evidence
            && b.hasSocket == a.hasSocket && b.delivered == a.delivered
  {
  }

  lemma FailKeepsInv(a: Attempt, why: Stop)
    requires Inv(a)
    ensures var b := FailRun(a, why);
            && Inv(b) && Follows(a, b)
            && b.evidence == a.evidence
            && b.hasSocket == a.hasSocket && b.delivered == a.delivered
  {
  }

  lemma AnswersKeepInv(a: Attempt, answers: Resolution, t0: int, t1: int)
    requires Inv(a)
    requires a.evidence.authorized && (a.work.AwaitPolicy? || a.work.AwaitDns?)
    requires answers.Answers? && a.plan.destination.ip.Some? ==>
               var ip := a.plan.destination.ip.value;
               answers.list == [RawAnswer(Some(ip), FamilyOf(ip))]
    ensures var b := AnswersArrive(a, answers, t0, t1);
            && Inv(b) && Follows(a, b)
            && b.evidence.handedOver == a.evidence.handedOver && b.delivered == a.delivered && b.hasSocket == a.hasSocket
  {
    var active := AssertActive(a, t0);
    ActiveKeepsInv(a, t0);
    if active.terminal.Some? {
      FailKeepsInv(active, active.terminal.value);
    } else if !Acceptable(answers, a.plan.maxDnsAnswers) {
      FailKeepsInv(active, Stop(Dns, InvalidAnswers));
    } else {
      var answered := active.(evidence := active.evidence.(answers := Some(answers.list)), stage := AddressPolicy);
      ActiveKeepsInv(answered, t1);
      var checked := AssertActive(answered, t1);
      if checked.terminal.Some? {
        FailKeepsInv(checked, checked.terminal.value);
      }
    }
  }

  lemma AddressesKeepInv(a: Attempt, allowed: bool, socketMade: bool, t0: int, t1: int)
    requires Inv(a) && a.work.AwaitAddresses?
    ensures var b := AddressesReturn(a, allowed, socketMade, t0, t1);
            && Inv(b) && Follows(a, b)
            && b.evidence.handedOver == a.evidence.handedOver && b.delivered == a.delivered
  {
    var active := AssertActive(a, t0);
    ActiveKeepsInv(a, t0);
    if !allowed {
      FailKeepsInv(a, Stop(AddressPolicy, CallbackFailure));
    } else if active.terminal.Some? {
      FailKeepsInv(active, active.terminal.value);
    } else {
      var addresses := a.work.addresses;
      var endpoint := Endpoint(addresses[0], a.plan.destination.port);
      var chosen := active.(stage := Tcp,
                            evidence := active.evidence.(allowed := Some(addresses), endpoint := Some(endpoint)));
      assert Inv(chosen) && OpenedLawfully(chosen);
      if !socketMade {
        FailKeepsInv(chosen, Stop(Tcp, TransportFailure));
      }
    }
  }

  lemma PolicyKeepsInv(a: Attempt, allowed: bool, t0: int, t1: int, t2: int)
    requires Inv(a) && a.work.AwaitPolicy?
    ensures var b := PolicyReturns(a, allowed, t0, t1, t2);
            && Inv(b) && Follows(a, b)
            && b.evidence.handedOver == a.evidence.handedOver && b.delivered == a.delivered && b.hasSocket == a.hasSocket
  {
    var active := AssertActive(a, t0);
    ActiveKeepsInv(a, t0);
    if !allowed {
      FailKeepsInv(a, Stop(Policy, CallbackFailure));
    } else if active.terminal.Some? {
      FailKeepsInv(active, active.terminal.value);
    } else {
      var authorized := active.(evidence := active.evidence.(authorized := true));
      if a.plan.destination.ip.Some? {
        var ip := a.plan.destination.ip.value;
        AnswersKeepInv(authorized, Answers([RawAnswer(Some(ip), FamilyOf(ip))]), t1, t2);
      } else {
        var resolving := AssertActive(authorized.(stage := Dns), t1);
        ActiveKeepsInv(authorized.(stage := Dns), t1);
        if resolving.terminal.Some? {
          FailKeepsInv(resolving, resolving.terminal.value);
        }
      }
    }
  }

  lemma ConnectKeepsInv(a: Attempt, peer: Option<Literal>, peerPort: nat, t0: int, t1: int)
    requires Inv(a) && a.hasSocket && !a.connectHeard
    ensures var b := SocketConnects(a, peer, peerPort, t0, t1);
            && Inv(b) && Follows(a, b)
            && b.evidence.handedOver == a.evidence.handedOver && b.hasSocket == a.hasSocket
  {
    var heard := AssertActive(a.(connectHeard := true), t0);
    ActiveKeepsInv(a.(connectHeard := true), t0);
    if heard.terminal.Some? {
      StopKeepsInv(heard, heard.terminal.value);
    } else if !SameEndpoint(peer, peerPort, heard.evidence.endpoint) {
      StopKeepsInv(heard, Stop(Tcp, PeerMismatch));
    } else {
      var checked := AssertActive(heard, t1);
      ActiveKeepsInv(heard, t1);
      if checked.terminal.Some? {
        StopKeepsInv(checked, checked.terminal.value);
      }
    }
  }

  predicate ContinuesRun(e: Event) {
    e.PolicyDone? || e.DnsDone? || e.AddressesDone? || e.DialDone?
  }

  lemma RunEventKeepsInv(a: Attempt, e: Event)
    requires Inv(a) && Enabled(a, e) && ContinuesRun(e)
    ensures var b := Next(a, e);
            && Inv(b) && Follows(a, b)
            && (b.hasSocket && !a.hasSocket ==> e.AddressesDone?)
            && (b.delivered && !a.delivered ==> e.SocketConnected?)
            && (b.evidence.handedOver && !a.evidence.handedOver ==> e.ConnectResumes?)
  {
    match e
    case PolicyDone(allowed, t0, t1, t2) => PolicyKeepsInv(a, allowed, t0, t1, t2);
    case DnsDone(answers, t0, t1) =>
      if answers.ResolveFailed? { FailKeepsInv(a, Stop(Dns, CallbackFailure)); }
      else { AnswersKeepInv(a, answers, t0, t1); }
    case AddressesDone(allowed, made, t0, t1) => AddressesKeepInv(a, allowed, made, t0, t1);
    case DialDone(threw) => if threw { FailKeepsInv(a, Stop(a.stage, TransportFailure)); }
  }

  lemma OtherEventKeepsInv(a: Attempt, e: Event)
    requires Inv(a) && Enabled(a, e) && !ContinuesRun(e)
    ensures var b := Next(a, e);
            && Inv(b) && Follows(a, b)
            && (b.hasSocket && !a.hasSocket ==> e.AddressesDone?)
            && (b.delivered && !a.delivered ==> e.SocketConnected?)
            && (b.evidence.handedOver && !a.evidence.handedOver ==> e.ConnectResumes?)
  {
    match e
    case SocketConnected(peer, port, t0, t1) => ConnectKeepsInv(a, peer, port, t0, t1);
    case SocketErrored => StopKeepsInv(a, Stop(a.stage, TransportFailure));
    case SocketHasClosed =>
    case CallerAborts => StopKeepsInv(a, Stop(a.stage, CallerCancelled));
    case TimerFires(now) => ActiveKeepsInv(a, now);
    case LeaseCloses => StopKeepsInv(a, Stop(Lease, LeaseClosed));
    case AuthorityRevokes => StopKeepsInv(a, Stop(Admission, AuthorityRevoked));
    case ConnectResumes(now) => ActiveKeepsInv(a, now);
  }

  lemma NextKeepsInv(a: Attempt, e: Event)
    requires Inv(a)
    ensures var b := Next(a, e);
            && Inv(b) && Follows(a, b)
            && (b.hasSocket && !a.hasSocket ==> e.AddressesDone?)
            && (b.delivered && !a.delivered ==> e.SocketConnected?)
            && (b.evidence.handedOver && !a.evidence.handedOver ==> e.ConnectResumes?)
  {
    if Enabled(a, e) {
      if ContinuesRun(e) { RunEventKeepsInv(a, e); } else { OtherEventKeepsInv(a, e); }
    }
  }

  lemma BeginKeepsInv(plan: Plan, callerAborted: bool, now: int)
    ensures var b := Begin(Fresh(plan), callerAborted, now);
            Inv(b) && Follows(Fresh(plan), b)
  {
    var initial := Fresh(plan);
    StopKeepsInv(initial, Stop(initial.stage, CallerCancelled));
    var started := if callerAborted then StopWith(initial, Stop(initial.stage, CallerCancelled)) else initial;
    ActiveKeepsInv(started.(stage := Policy), now);
    var checked := AssertActive(started.(stage := Policy), now);
    if checked.terminal.Some? {
      FailKeepsInv(checked, checked.terminal.value);
    }
  }

  /** Over any sequence of events the invariant holds and nothing established is taken back. */
  lemma {:induction false} RunKeepsInv(a: Attempt, events: seq<Event>)
    requires Inv(a)
    ensures Inv(Run(a, events)) && Follows(a, Run(a, events))
    decreases |events|
  {
    if events != [] {
      NextKeepsInv(a, events[0]);
      RunKeepsInv(Next(a, events[0]), events[1..]);
    }
  }

  // --- Safety of delivery --------------------------------------------------------------

  /** A lease is delivered by one event only, before either deadline, while nothing has stopped. */
  lemma DeliveryIsTimely(a: Attempt, e: Event)
    requires Inv(a) && !a.delivered && Next(a, e).delivered
    ensures e.SocketConnected? && a.terminal.None? && Next(a, e).terminal.None?
    ensures e.t1 < a.plan.setupDeadline && e.t1 < a.plan.callerDeadline
    ensures DeliveredLawfully(Next(a, e))
  {
    NextKeepsInv(a, e);
  }

  /** Whoever receives a lease receives it at a moment `k` when the whole chain of checks has
    * been passed, the caller's deadline is ahead, and no stop has happened at any earlier moment. */
  lemma {:induction false} LeaseIsEarned(a: Attempt, events: seq<Event>) returns (k: nat)
    requires Inv(a) && !a.evidence.handedOver && Run(a, events).evidence.handedOver
    ensures k < |events| && events[k].ConnectResumes? && events[k].now < a.plan.callerDeadline
    ensures DeliveredLawfully(Run(a, events[..k]))
    ensures forall j :: 0 <= j <= k ==> Run(a, events[..j]).terminal.None?
    decreases |events|
  {
    var b := Next(a, events[0]);
    NextKeepsInv(a, events[0]);
    if b.evidence.handedOver {
      k := 0;
    } else {
      var rest := LeaseIsEarned(b, events[1..]);
      k := rest + 1;
      forall j | 0 <= j <= k
        ensures Run(a, events[..j]).terminal.None?
      {
        if j > 0 {
          assert events[..j][1..] == events[1..][..j - 1];
        } else {
          assert Run(b, events[1..][..0]) == b;
        }
      }
      assert events[..k][1..] == events[1..][..rest];
    }
  }

  // --- Draining ----------------------------------------------------------------------

  /** What a stopped attempt still waits for: its pending callback and its socket. */
  function Owed(a: Attempt): nat {
    (if a.work.Settled? then 0 else 1) + (if a.socketClosed then 0 else 1)
  }

  predicate Repays(a: Attempt, e: Event) {
    Enabled(a, e) && (ContinuesRun(e) || e.SocketHasClosed?)
  }

  function Repaid(a: Attempt, events: seq<Event>): nat
    decreases |events|
  {
    if events == [] then 0
    else (if Repays(a, events[0]) then 1 else 0) + Repaid(Next(a, events[0]), events[1..])
  }

  lemma StoppedStepRepays(a: Attempt, e: Event)
    requires Inv(a) && a.terminal.Some?
    ensures Owed(Next(a, e)) == Owed(a) - (if Repays(a, e) then 1 else 0)
  {
  }

  /** After a stop the attempt drains exactly when everything owed has been repaid, in any order
    * and with anything else in between; it never gains a socket. */
  lemma {:induction false} StoppedRunDrains(a: Attempt, events: seq<Event>)
    requires Inv(a) && a.terminal.Some?
    ensures Owed(Run(a, events)) == Owed(a) - Repaid(a, events)
    ensures Run(a, events).drained <==> Repaid(a, events) == Owed(a)
    ensures Run(a, events).hasSocket == a.hasSocket
    decreases |events|
  {
    if events != [] {
      var b := Next(a, events[0]);
      StoppedStepRepays(a, events[0]);
      NextKeepsInv(a, events[0]);
      StoppedRunDrains(b, events[1..]);
    }
  }

  /** What is owed can always be delivered: a stopped attempt is never stuck. */
  lemma StoppedIsNeverStuck(a: Attempt) returns (e: Event)
    requires Inv(a) && a.terminal.Some? && !a.drained
    ensures Repays(a, e)
  {
    if !a.socketClosed {
      e := SocketHasClosed;
    } else {
      match a.work
      case AwaitPolicy => e := PolicyDone(false, 0, 0, 0);
      case AwaitDns => e := DnsDone(ResolveFailed, 0, 0);
      case AwaitAddresses(_) => e := AddressesDone(false, false, 0, 0);
      case Dialing => e := DialDone(false);
      case Settled => assert false;
    }
  }

  // --- The good run ------------------------------------------------------------------

  predicate InTime(a: Attempt, now: int) { now < ActiveDeadline(a) }

  /** An event that gives no reason to stop: an allowed answer, the right peer, a reading in time. */
  predicate Lawful(a: Attempt, e: Event) {
    match e
    case PolicyDone(allowed, t0, t1, t2) => allowed && InTime(a, t0) && InTime(a, t1) && InTime(a, t2)
    case DnsDone(answers, t0, t1) => Acceptable(answers, a.plan.maxDnsAnswers) && InTime(a, t0) && InTime(a, t1)
    case AddressesDone(allowed, made, t0, t1) => allowed && made && InTime(a, t0) && InTime(a, t1)
    case DialDone(threw) => !threw
    case SocketConnected(peer, port, t0, t1) =>
      SameEndpoint(peer, port, a.evidence.endpoint) && InTime(a, t0) && InTime(a, t1)
    case TimerFires(now) => InTime(a, now)
    case ConnectResumes(now) => InTime(a, now)
    case _ => false
  }

  predicate AllLawful(a: Attempt, events: seq<Event>)
    decreases |events|
  {
    events == [] || (Lawful(a, events[0]) && AllLawful(Next(a, events[0]), events[1..]))
  }

  /** The answers and the connect that are still to come before the hand-over. */
  function Remaining(a: Attempt): nat {
    (match a.work
     case AwaitPolicy => if a.plan.destination.ip.Some? then 2 else 3
     case AwaitDns => 2
     case AwaitAddresses(_) => 1
     case _ => 0)
    + (if a.delivered then 0 else 1) + (if a.evidence.handedOver then 0 else 1)
  }

  predicate Advances(a: Attempt, e: Event) {
    Enabled(a, e)
    && (e.PolicyDone? || e.DnsDone? || e.AddressesDone? || e.SocketConnected?
      || (e.ConnectResumes? && !a.evidence.handedOver))
  }

  function Advanced(a: Attempt, events: seq<Event>): nat
    decreases |events|
  {
    if events == [] then 0
    else (if Advances(a, events[0]) then 1 else 0) + Advanced(Next(a, events[0]), events[1..])
  }

  /** An attempt that nothing has stopped, and whose socket's connect was heard only to deliver. */
  predicate Sound(a: Attempt) {
    Inv(a) && a.terminal.None? && a.plan.maxDnsAnswers >= 1 && (a.connectHeard <==> a.delivered)
  }

  lemma LawfulAnswersStep(a: Attempt, e: Event)
    requires Sound(a) && Enabled(a, e) && Lawful(a, e) && (e.PolicyDone? || e.DnsDone? || e.AddressesDone?)
    ensures var b := Next(a, e);
      b.terminal.None? && b.plan == a.plan && b.connectHeard == a.connectHeard && Remaining(b) == Remaining(a) - 1
  {
    if e.AddressesDone? { assert |a.work.addresses| >= 1; }
  }

  lemma LawfulOtherStep(a: Attempt, e: Event)
    requires Sound(a) && Enabled(a, e) && Lawful(a, e) && !(e.PolicyDone? || e.DnsDone? || e.AddressesDone?)
    ensures var b := Next(a, e);
      && b.terminal.None? && b.plan == a.plan && (b.connectHeard <==> b.delivered)
      && Remaining(b) == Remaining(a) - (if Advances(a, e) then 1 else 0)
  {
  }

  lemma LawfulStep(a: Attempt, e: Event)
    requires Sound(a) && Lawful(a, e)
    ensures Sound(Next(a, e)) && Remaining(Next(a, e)) == Remaining(a) - (if Advances(a, e) then 1 else 0)
  {
    NextKeepsInv(a, e);
    if Enabled(a, e) {
      if e.PolicyDone? || e.DnsDone? || e.AddressesDone? {
        LawfulAnswersStep(a, e);
      } else {
        LawfulOtherStep(a, e);
      }
    }
  }

  lemma {:induction false} LawfulRunAdvances(a: Attempt, events: seq<Event>)
    requires Sound(a) && AllLawful(a, events)
    ensures Sound(Run(a, events)) && Remaining(Run(a, events)) == Remaining(a) - Advanced(a, events)
    decreases |events|
  {
    if events != [] {
      LawfulStep(a, events[0]);
      LawfulRunAdvances(Next(a, events[0]), events[1..]);
    }
  }

  /** The checks refuse nothing else: in any order of lawful events the attempt is never stopped, and the
    * caller has its lease exactly when the policy, the resolver for a name, the address policy, the
    * connect and the continuation have all had their turn. */
  lemma LawfulRunDelivers(plan: Plan, now: int, events: seq<Event>)
    requires plan.maxDnsAnswers >= 1 && now < plan.setupDeadline && now < plan.callerDeadline
    requires AllLawful(Begin(Fresh(plan), false, now), events)
    ensures var a := Begin(Fresh(plan), false, now);
      && Run(a, events).terminal.None?
      && (Run(a, events).evidence.handedOver <==>
        Advanced(a, events) == (if plan.destination.ip.Some? then 4 else 5))
  {
    var a := Begin(Fresh(plan), false, now);
    BeginKeepsInv(plan, false, now);
    assert Sound(a) && Remaining(a) == (if plan.destination.ip.Some? then 4 else 5);
    LawfulRunAdvances(a, events);
    HandedOverIsDone(Run(a, events));
  }

  lemma HandedOverIsDone(a: Attempt)
    requires Sound(a)
    ensures a.evidence.handedOver <==> Remaining(a) == 0
  {
  }

  /** And there is always a next lawful event that advances, until the lease is handed over. */
  lemma LawfulAttemptCanAdvance(a: Attempt, answers: seq<RawAnswer>, peer: Literal) returns (e: Event)
    requires Sound(a) && !a.evidence.handedOver
    requires Acceptable(Answers(answers), a.plan.maxDnsAnswers)
    requires a.hasSocket ==> Canonical(peer) == Canonical(a.evidence.endpoint.value.host)
    ensures Lawful(a, e) && Advances(a, e)
  {
    var t := ActiveDeadline(a) - 1;
    if a.delivered {
      e := ConnectResumes(t);
    } else {
      match a.work
      case AwaitPolicy => e := PolicyDone(true, t, t, t);
      case AwaitDns => e := DnsDone(Answers(answers), t, t);
      case AwaitAddresses(_) => e := AddressesDone(true, true, t, t);
      case _ => e := SocketConnected(Some(peer), a.evidence.endpoint.value.port, t, t);
    }
  }
}
