/** Request pacing as a protocol: at most five admissions in any second, served in queue order.
  *
  * Requests that pass their own base check queue up; the head of the queue looks at the clock, and is
  * admitted, refused, or sleeps on a timer and looks again.  Timers here may fire at any later time;
  * the last part of this module makes them exact.
  */
module PacingProtocol {
  import opened Options

  const WINDOW_MS := 1000
  const LIMIT := 5
  const PATIENCE_MS := 15000

  datatype Request = Request(id: nat, enqueued: int)

  datatype Pacer = Pacer(
    clock: int,
    admitted: seq<int>,
    stopped: bool,
    queue: seq<Request>,
    asked: nat,
    times: seq<int>,
    served: seq<nat>,
    refused: seq<nat>)

  function Initial(clock: int): Pacer {
    Pacer(clock, [], false, [], 0, [], [], [])
  }

  // --- One look at the clock -----------------------------------------------------------------

  /** The admissions of the last second. */
  function Recent(admitted: seq<int>, now: int): seq<int> {
    if admitted == [] then []
    else (if admitted[0] > now - WINDOW_MS then [admitted[0]] else []) + Recent(admitted[1..], now)
  }

  datatype Verdict = Admit | Refuse | Sleep(ms: int)

  /** What the head does, given the recent admissions and the time it has been in the queue. */
  function Decide(recent: seq<int>, stopped: bool, enqueued: int, now: int): Verdict {
    if stopped then Refuse
    else if |recent| < LIMIT then Admit
    else
      var due := recent[0] + WINDOW_MS - now;
      var wait := if due < 1 then 1 else due;
      if now - enqueued + wait > PATIENCE_MS then Refuse else Sleep(wait)
  }

  // --- Events ----------------------------------------------------------------------------------

  datatype Event = Ask(basePasses: bool, now: int) | Look(now: int) | StopPacing

  function AskFor(p: Pacer, now: int): Pacer {
    p.(clock := now, queue := p.queue + [Request(p.asked, now)], asked := p.asked + 1)
  }

  function LookAt(p: Pacer, now: int): Pacer {
    if p.queue == [] then p.(clock := now)
    else
      var head := p.queue[0];
      var recent := if p.stopped then p.admitted else Recent(p.admitted, now);
      match Decide(recent, p.stopped, head.enqueued, now)
      case Admit =>
        p.(clock := now, admitted := recent + [now], queue := p.queue[1..],
           times := p.times + [now], served := p.served + [head.id])
      case Refuse =>
        p.(clock := now, admitted := recent, queue := p.queue[1..], refused := p.refused + [head.id])
      case Sleep(_) =>
        p.(clock := now, admitted := recent)
  }

  /** The clock never goes back: an event from the past does not occur. */
  function Next(p: Pacer, e: Event): Pacer {
    match e
    case Ask(passes, now) => if !passes || now < p.clock then p else AskFor(p, now)
    case Look(now) => if now < p.clock then p else LookAt(p, now)
    case StopPacing => p.(stopped := true)
  }

  function Run(p: Pacer, events: seq<Event>): Pacer
    decreases |events|
  {
    if events == [] then p else Run(Next(p, events[0]), events[1..])
  }

  // --- The window --------------------------------------------------------------------------------

  predicate Ascending(times: seq<int>) {
    |times| < 2 || (times[0] <= times[1] && Ascending(times[1..]))
  }

  lemma {:induction false} FirstIsLeast(times: seq<int>, i: nat)
    requires Ascending(times) && i < |times|
    ensures times[0] <= times[i]
  {
    if i > 0 { FirstIsLeast(times[1..], i - 1); }
  }

  lemma {:induction false} LaterIsNoEarlier(times: seq<int>, i: nat, j: nat)
    requires Ascending(times) && i <= j < |times|
    ensures times[i] <= times[j]
  {
    if i == 0 { FirstIsLeast(times, j); } else { LaterIsNoEarlier(times[1..], i - 1, j - 1); }
  }

  lemma {:induction false} SuffixAscends(times: seq<int>, k: nat)
    requires Ascending(times) && k <= |times|
    ensures Ascending(times[k..])
  {
    if k > 0 {
      SuffixAscends(times[1..], k - 1);
      assert times[1..][k - 1..] == times[k..];
    }
  }

  lemma {:induction false} AppendAscends(times: seq<int>, now: int)
    requires Ascending(times) && (times == [] || times[|times| - 1] <= now)
    ensures Ascending(times + [now])
  {
    if |times| >= 1 {
      AppendAscends(times[1..], now);
      assert (times + [now])[1..] == times[1..] + [now];
    }
  }

  lemma {:induction false} RecentKeepsAll(admitted: seq<int>, now: int)
    requires forall i :: 0 <= i < |admitted| ==> admitted[i] > now - WINDOW_MS
    ensures Recent(admitted, now) == admitted
  {
    if admitted != [] {
      RecentKeepsAll(admitted[1..], now);
      assert [admitted[0]] + admitted[1..] == admitted;
    }
  }

  /** How many entries of an ascending list have left the window. */
  function Expired(admitted: seq<int>, now: int): (k: nat)
    ensures k <= |admitted|
  {
    if admitted == [] || admitted[0] > now - WINDOW_MS then 0 else 1 + Expired(admitted[1..], now)
  }

  /** On an ascending list, filtering drops a prefix and keeps everything after it. */
  lemma {:induction false} RecentIsSuffix(admitted: seq<int>, now: int)
    requires Ascending(admitted)
    ensures Recent(admitted, now) == admitted[Expired(admitted, now)..]
    ensures forall i :: 0 <= i < Expired(admitted, now) ==> admitted[i] <= now - WINDOW_MS
  {
    if admitted != [] {
      if admitted[0] > now - WINDOW_MS {
        forall i | 0 <= i < |admitted| ensures admitted[i] > now - WINDOW_MS {
          FirstIsLeast(admitted, i);
        }
        RecentKeepsAll(admitted, now);
      } else {
        var rest := admitted[1..];
        RecentIsSuffix(rest, now);
        assert rest[Expired(rest, now)..] == admitted[Expired(admitted, now)..];
        forall i | 0 <= i < Expired(admitted, now) ensures admitted[i] <= now - WINDOW_MS {
          if i > 0 { assert rest[i - 1] == admitted[i]; }
        }
      }
    }
  }

  // --- What every step keeps ----------------------------------------------------------------------

  predicate Until(times: seq<int>, end: nat, limit: int) {
    end <= |times| && forall i :: 0 <= i < end ==> times[i] <= limit
  }

  /** The window list is the end of the history; whatever it no longer holds is a second old. */
  predicate WindowHolds(admitted: seq<int>, times: seq<int>, clock: int) {
    && |admitted| <= |times|
    && |admitted| <= LIMIT
    && admitted == times[|times| - |admitted|..]
    && Until(times, |times| - |admitted|, clock - WINDOW_MS)
    && Until(times, |times|, clock)
    && Ascending(times)
  }

  /** Any six consecutive admissions span at least a second. */
  predicate Paced(times: seq<int>) {
    forall i :: 0 <= i < |times| ==> PacedFrom(times, i)
  }

  predicate PacedFrom(times: seq<int>, i: nat) {
    i + LIMIT < |times| ==> times[i + LIMIT] - times[i] >= WINDOW_MS
  }

  /** The window moves on: entries drop out of the front. */
  lemma RecentKeepsWindow(admitted: seq<int>, times: seq<int>, clock: int, now: int)
    requires WindowHolds(admitted, times, clock) && clock <= now
    ensures WindowHolds(Recent(admitted, now), times, now)
  {
    var off := |times| - |admitted|;
    SuffixAscends(times, off);
    RecentIsSuffix(admitted, now);
    var k := Expired(admitted, now);
    DropTwice(times, off, k);
    assert |times| - |Recent(admitted, now)| == off + k;
    ExpiredJoin(times, off, k, now - WINDOW_MS);
  }

  lemma DropTwice(s: seq<int>, a: nat, b: nat)
    requires a + b <= |s|
    ensures s[a..][b..] == s[a + b..]
  {
  }

  lemma ExpiredJoin(times: seq<int>, off: nat, k: nat, limit: int)
    requires off + k <= |times| && Until(times, off, limit) && Until(times[off..], k, limit)
    ensures Until(times, off + k, limit)
  {
    forall i | 0 <= i < off + k ensures times[i] <= limit {
      if i >= off { assert times[i] == times[off..][i - off]; }
    }
  }

  /** Whatever is five places before a new admission has left the window. */
  lemma AdmitKeepsPaced(times: seq<int>, recent: nat, now: int)
    requires Paced(times) && recent <= |times| && recent < LIMIT
    requires Until(times, |times| - recent, now - WINDOW_MS)
    ensures Paced(times + [now])
  {
    var more := times + [now];
    forall i | 0 <= i < |more| ensures PacedFrom(more, i) {
      if i + LIMIT < |times| {
        assert PacedFrom(times, i);
      } else if i + LIMIT == |times| {
        assert i < |times| - recent;
      }
    }
  }

  lemma UntilGrows(times: seq<int>, now: int)
    ensures forall end, limit | Until(times, end, limit) :: Until(times + [now], end, limit)
    ensures Until(times, |times|, now) ==> Until(times + [now], |times| + 1, now)
  {
  }

  /** An admission joins both lists. */
  lemma AdmitKeepsWindow(recent: seq<int>, times: seq<int>, now: int)
    requires WindowHolds(recent, times, now) && |recent| < LIMIT
    ensures WindowHolds(recent + [now], times + [now], now)
  {
    AppendAscends(times, now);
    UntilGrows(times, now);
    var off := |times| - |recent|;
    assert (times + [now])[off..] == times[off..] + [now];
  }

  predicate Increasing(ids: seq<nat>, n: nat) {
    && (forall i :: 0 <= i < |ids| ==> ids[i] < n)
    && (forall i, j :: 0 <= i < j < |ids| ==> ids[i] < ids[j])
  }

  /** Every request that passed its base check is admitted, refused or still queued, once, in order. */
  predicate OrderHolds(p: Pacer) {
    && |p.served| + |p.refused| + |p.queue| == p.asked
    && |p.served| == |p.times|
    && (forall i :: 0 <= i < |p.queue| ==> p.queue[i].id == p.asked - |p.queue| + i)
    && Increasing(p.served, p.asked - |p.queue|)
    && Increasing(p.refused, p.asked - |p.queue|)
    && (forall i :: 0 <= i < |p.served| ==> p.served[i] !in p.refused)
  }

  predicate Inv(p: Pacer) {
    WindowHolds(p.admitted, p.times, p.clock) && Paced(p.times) && OrderHolds(p)
  }

  lemma OneMoreId(ids: seq<nat>, n: nat)
    requires Increasing(ids, n)
    ensures Increasing(ids, n + 1) && Increasing(ids + [n], n + 1) && n !in ids
  {
  }

  lemma LookKeepsOrder(p: Pacer, now: int)
    requires OrderHolds(p)
    ensures OrderHolds(LookAt(p, now))
  {
    if p.queue != [] {
      var n := p.asked - |p.queue|;
      OneMoreId(p.served, n);
      OneMoreId(p.refused, n);
      assert p.queue[0].id == n;
      assert forall i :: 0 <= i < |p.queue[1..]| ==> p.queue[1..][i] == p.queue[i + 1];
    }
  }

  lemma NextKeepsOrder(p: Pacer, e: Event)
    requires OrderHolds(p)
    ensures OrderHolds(Next(p, e))
  {
    if e.Look? && e.now >= p.clock { LookKeepsOrder(p, e.now); }
  }

  lemma LookKeepsWindow(p: Pacer, now: int)
    requires WindowHolds(p.admitted, p.times, p.clock) && Paced(p.times) && p.clock <= now
    ensures var q := LookAt(p, now); WindowHolds(q.admitted, q.times, q.clock) && Paced(q.times)
  {
    TimePasses(p.admitted, p.times, p.clock, now);
    RecentKeepsWindow(p.admitted, p.times, p.clock, now);
    var recent := Recent(p.admitted, now);
    if |recent| < LIMIT { AdmitKeepsBoth(recent, p.times, now); }
    LookChoices(p, now);
  }

  lemma AdmitKeepsBoth(recent: seq<int>, times: seq<int>, now: int)
    requires WindowHolds(recent, times, now) && |recent| < LIMIT && Paced(times)
    ensures WindowHolds(recent + [now], times + [now], now) && Paced(times + [now])
  {
    AdmitKeepsPaced(times, |recent|, now);
    AdmitKeepsWindow(recent, times, now);
  }

  /** What a look can leave: everything but the clock as it was, the window filtered, or one more admission. */
  lemma LookChoices(p: Pacer, now: int)
    ensures var q := LookAt(p, now);
      var recent := Recent(p.admitted, now);
      && q.clock == now
      && ((q.admitted == p.admitted && q.times == p.times)
        || (q.admitted == recent && q.times == p.times)
        || (|recent| < LIMIT && q.admitted == recent + [now] && q.times == p.times + [now]))
  {
  }

  lemma TimePasses(admitted: seq<int>, times: seq<int>, clock: int, now: int)
    requires WindowHolds(admitted, times, clock) && clock <= now
    ensures WindowHolds(admitted, times, now)
  {
  }

  lemma NextKeepsWindow(p: Pacer, e: Event)
    requires WindowHolds(p.admitted, p.times, p.clock) && Paced(p.times)
    ensures var q := Next(p, e); WindowHolds(q.admitted, q.times, q.clock) && Paced(q.times)
  {
    match e {
      case Look(now) => if now >= p.clock { LookKeepsWindow(p, now); }
      case Ask(passes, now) => if passes && now >= p.clock { TimePasses(p.admitted, p.times, p.clock, now); }
      case StopPacing =>
    }
  }

  lemma NextKeepsInv(p: Pacer, e: Event)
    requires Inv(p)
    ensures Inv(Next(p, e))
  {
    NextKeepsOrder(p, e);
    NextKeepsWindow(p, e);
  }

  lemma {:induction false} RunKeepsInv(p: Pacer, events: seq<Event>)
    requires Inv(p)
    ensures Inv(Run(p, events))
    decreases |events|
  {
    if events != [] {
      NextKeepsInv(p, events[0]);
      RunKeepsInv(Next(p, events[0]), events[1..]);
    }
  }

  // --- What callers rely on --------------------------------------------------------------------

  /** For every run: admissions in any half-open second number at most five, in the order asked. */
  lemma AtMostFivePerSecond(clock: int, events: seq<Event>, i: nat, j: nat)
    requires i <= j < |Run(Initial(clock), events).times|
    requires Run(Initial(clock), events).times[j] - Run(Initial(clock), events).times[i] < WINDOW_MS
    ensures j - i < LIMIT
    ensures var p := Run(Initial(clock), events);
      |p.served| == |p.times| && (i < j ==> p.served[i] < p.served[j])
  {
    RunKeepsInv(Initial(clock), events);
    var times := Run(Initial(clock), events).times;
    if j - i >= LIMIT {
      assert PacedFrom(times, i);
      LaterIsNoEarlier(times, i + LIMIT, j);
    }
  }

  /** For every run: no request is lost, and none is decided twice. */
  lemma EveryRequestIsDecidedOnce(clock: int, events: seq<Event>, id: nat)
    ensures var p := Run(Initial(clock), events);
      id < p.asked ==> (id in p.served) || (id in p.refused) || (exists r :: r in p.queue && r.id == id)
    ensures var p := Run(Initial(clock), events); !(id in p.served && id in p.refused)
    ensures var p := Run(Initial(clock), events);
      forall r | r in p.queue && r.id == id :: id !in p.served && id !in p.refused
  {
    RunKeepsInv(Initial(clock), events);
    var p := Run(Initial(clock), events);
    if id < p.asked {
      if id >= p.asked - |p.queue| {
        assert p.queue[id - (p.asked - |p.queue|)] in p.queue;
      } else {
        Covered(p.served, p.refused, p.asked - |p.queue|, id);
      }
    }
  }

  /** Two disjoint ascending lists of naturals below n with n entries in all hold every one. */
  lemma Covered(a: seq<nat>, b: seq<nat>, n: nat, id: nat)
    requires |a| + |b| == n && id < n
    requires forall i :: 0 <= i < |a| ==> a[i] < n
    requires forall i :: 0 <= i < |b| ==> b[i] < n
    requires forall i, j :: 0 <= i < j < |a| ==> a[i] < a[j]
    requires forall i, j :: 0 <= i < j < |b| ==> b[i] < b[j]
    requires forall i, j :: 0 <= i < |a| && 0 <= j < |b| ==> a[i] != b[j]
    ensures id in a || id in b
  {
    if id != n - 1 {
      if a != [] && a[|a| - 1] == n - 1 {
        Covered(a[..|a| - 1], b, n - 1, id);
      } else if b != [] && b[|b| - 1] == n - 1 {
        Covered(a, b[..|b| - 1], n - 1, id);
      } else {
        TooMany(a, b, n - 1);
      }
    } else if id !in a && id !in b {
      TooMany(a, b, n - 1);
    }
  }

  lemma {:induction false} TooMany(a: seq<nat>, b: seq<nat>, n: nat)
    requires |a| + |b| > n
    requires forall i :: 0 <= i < |a| ==> a[i] < n
    requires forall i :: 0 <= i < |b| ==> b[i] < n
    requires forall i, j :: 0 <= i < j < |a| ==> a[i] < a[j]
    requires forall i, j :: 0 <= i < j < |b| ==> b[i] < b[j]
    requires forall i, j :: 0 <= i < |a| && 0 <= j < |b| ==> a[i] != b[j]
    ensures false
  {
    if n > 0 {
      if a != [] && a[|a| - 1] == n - 1 {
        TooMany(a[..|a| - 1], b, n - 1);
      } else if b != [] && b[|b| - 1] == n - 1 {
        TooMany(a, b[..|b| - 1], n - 1);
      } else {
        TooMany(a, b, n - 1);
      }
    }
  }

  /** Once stopped, no event admits anything, and every look refuses the head of the queue. */
  lemma {:induction false} NothingAfterStop(p: Pacer, events: seq<Event>)
    requires p.stopped
    ensures Run(p, events).stopped && Run(p, events).times == p.times && Run(p, events).served == p.served
    decreases |events|
  {
    if events != [] { NothingAfterStop(Next(p, events[0]), events[1..]); }
  }

  predicate FailedCheck(e: Event) { e.Ask? && !e.basePasses }

  function WithoutFailed(events: seq<Event>): seq<Event> {
    if events == [] then []
    else if FailedCheck(events[0]) then WithoutFailed(events[1..])
    else [events[0]] + WithoutFailed(events[1..])
  }

  /** Requests whose base check fails leave no trace: the run is the run without them. */
  lemma {:induction false} FailedChecksLeaveNoTrace(p: Pacer, events: seq<Event>)
    ensures Run(p, events) == Run(p, WithoutFailed(events))
    decreases |events|
  {
    if events != [] {
      FailedChecksLeaveNoTrace(Next(p, events[0]), events[1..]);
      if !FailedCheck(events[0]) {
        assert ([events[0]] + WithoutFailed(events[1..]))[1..] == WithoutFailed(events[1..]);
      }
    }
  }

  // --- Exact timers --------------------------------------------------------------------------------

  datatype Finish = Finish(at: int, waits: nat, admit: bool, admitted: seq<int>)

  /** The head looks at `now`, and again exactly when each of its timers is due. */
  function Settle(admitted: seq<int>, enqueued: int, now: int): Finish
    decreases enqueued + PATIENCE_MS - now
  {
    var recent := Recent(admitted, now);
    match Decide(recent, false, enqueued, now)
    case Admit => Finish(now, 0, true, recent + [now])
    case Refuse => Finish(now, 0, false, recent)
    case Sleep(ms) =>
      var rest := Settle(recent, enqueued, now + ms);
      rest.(waits := rest.waits + 1)
  }

  predicate Window(admitted: seq<int>, now: int) {
    Ascending(admitted) && |admitted| <= LIMIT && (admitted != [] ==> admitted[|admitted| - 1] <= now)
  }

  lemma RecentWindow(admitted: seq<int>, now: int)
    requires Window(admitted, now)
    ensures Window(Recent(admitted, now), now)
    ensures var recent := Recent(admitted, now);
      |recent| <= |admitted| && (recent != [] ==> recent[0] > now - WINDOW_MS)
    ensures admitted != [] && admitted[0] <= now - WINDOW_MS ==> |Recent(admitted, now)| < |admitted|
  {
    RecentIsSuffix(admitted, now);
    SuffixAscends(admitted, Expired(admitted, now));
    FirstKeptIsRecent(admitted, now);
  }

  lemma {:induction false} FirstKeptIsRecent(admitted: seq<int>, now: int)
    ensures Recent(admitted, now) != [] ==> Recent(admitted, now)[0] > now - WINDOW_MS
  {
    if admitted != [] { FirstKeptIsRecent(admitted[1..], now); }
  }

  /** With exact timers the first wait is the last: on waking, the oldest admission has expired. */
  lemma OneWaitIsEnough(admitted: seq<int>, enqueued: int, now: int)
    requires Window(admitted, now) && enqueued <= now <= enqueued + PATIENCE_MS
    ensures var f := Settle(admitted, enqueued, now);
      && f.waits <= 1
      && now <= f.at <= enqueued + PATIENCE_MS
      && Window(f.admitted, f.at)
      && (f.waits == 1 ==> f.admit)
  {
    RecentWindow(admitted, now);
    var recent := Recent(admitted, now);
    match Decide(recent, false, enqueued, now) {
      case Admit => AppendAscends(recent, now);
      case Refuse =>
      case Sleep(ms) =>
        var wake := now + ms;
        RecentWindow(recent, wake);
        AppendAscends(Recent(recent, wake), wake);
    }
  }

  /** The schedule above is a run of the protocol: the looks it makes bring the pacer to its result. */
  function Looks(admitted: seq<int>, enqueued: int, now: int): seq<Event>
    decreases enqueued + PATIENCE_MS - now
  {
    var recent := Recent(admitted, now);
    match Decide(recent, false, enqueued, now)
    case Sleep(ms) => [Look(now)] + Looks(recent, enqueued, now + ms)
    case _ => [Look(now)]
  }

  lemma {:induction false} SettleIsARun(p: Pacer, now: int)
    requires p.queue != [] && !p.stopped && p.clock <= now
    ensures var q := Run(p, Looks(p.admitted, p.queue[0].enqueued, now));
      var f := Settle(p.admitted, p.queue[0].enqueued, now);
      && q.admitted == f.admitted && q.clock == f.at && q.queue == p.queue[1..] && !q.stopped
      && q.times == (if f.admit then p.times + [f.at] else p.times)
      && q.served == (if f.admit then p.served + [p.queue[0].id] else p.served)
      && q.refused == (if f.admit then p.refused else p.refused + [p.queue[0].id])
    decreases p.queue[0].enqueued + PATIENCE_MS - now
  {
    var events := Looks(p.admitted, p.queue[0].enqueued, now);
    var q := Next(p, events[0]);
    match Decide(Recent(p.admitted, now), false, p.queue[0].enqueued, now) {
      case Sleep(ms) =>
        SettleIsARun(q, now + ms);
        assert events[1..] == Looks(q.admitted, q.queue[0].enqueued, now + ms);
      case _ =>
        assert events[1..] == [];
        assert Run(q, events[1..]) == q;
    }
  }

  // --- Runs with exact timers -------------------------------------------------------------------------

  datatype Decision = Decision(id: nat, enqueued: int, at: int, waits: nat, admit: bool)

  /** A pacer whose head looks again exactly at `due`: when it became the head, and when its timer fires. */
  datatype Timed = Timed(p: Pacer, due: Option<int>, waits: nat, decided: seq<Decision>)

  /** Requests may come at any moment up to the next look, which is taken exactly when it is due; nothing
    * else happens on exact timers, and nobody stops the pacer. */
  predicate OnTime(t: Timed, e: Event) {
    match e
    case Ask(passes, now) => passes && t.p.clock <= now && (t.due.Some? ==> now <= t.due.value)
    case Look(now) => t.due == Some(now) && t.p.clock <= now && t.p.queue != []
    case StopPacing => false
  }

  function Asked(t: Timed, e: Event): Timed
    requires e.Ask?
  {
    t.(p := Next(t.p, e), due := if t.due.None? then Some(e.now) else t.due)
  }

  function Looked(t: Timed, e: Event): Timed
    requires e.Look? && t.p.queue != []
  {
    var q := Next(t.p, e);
    var head := t.p.queue[0];
    match Decide(Recent(t.p.admitted, e.now), t.p.stopped, head.enqueued, e.now)
    case Sleep(ms) => t.(p := q, due := Some(e.now + ms), waits := t.waits + 1)
    case verdict =>
      Timed(q, if q.queue == [] then None else Some(e.now), 0,
        t.decided + [Decision(head.id, head.enqueued, e.now, t.waits, verdict.Admit?)])
  }

  function TimedNext(t: Timed, e: Event): Timed {
    if !OnTime(t, e) then t else if e.Ask? then Asked(t, e) else Looked(t, e)
  }

  function TimedRun(t: Timed, events: seq<Event>): Timed
    decreases |events|
  {
    if events == [] then t else TimedRun(TimedNext(t, events[0]), events[1..])
  }

  /** The events of a list that do happen on exact timers. */
  function Happening(t: Timed, events: seq<Event>): seq<Event>
    decreases |events|
  {
    if events == [] then []
    else (if OnTime(t, events[0]) then [events[0]] else []) + Happening(TimedNext(t, events[0]), events[1..])
  }

  function TimedStart(clock: int): Timed { Timed(Initial(clock), None, 0, []) }

  /** Decided within 15 s of queueing, after one wait at most, and admitted if it waited. */
  predicate Prompt(d: Decision) {
    d.enqueued <= d.at <= d.enqueued + PATIENCE_MS && d.waits <= 1 && (d.waits == 1 ==> d.admit)
  }

  predicate QueuedInTime(queue: seq<Request>, clock: int) {
    && (forall i :: 0 <= i < |queue| ==> queue[i].enqueued <= clock)
    && (forall i, j :: 0 <= i < j < |queue| ==> queue[i].enqueued <= queue[j].enqueued)
  }

  /** The head's look is due within its patience, and if it waited there will be room then. */
  predicate HeadHolds(t: Timed) {
    && (t.due.Some? <==> t.p.queue != [])
    && (t.due.Some? ==> t.p.clock <= t.due.value <= t.p.queue[0].enqueued + PATIENCE_MS)
    && t.waits <= 1
    && (t.waits == 1 ==> t.due.Some? && |Recent(t.p.admitted, t.due.value)| < LIMIT)
  }

  predicate TimedHolds(t: Timed) {
    && !t.p.stopped && Window(t.p.admitted, t.p.clock) && QueuedInTime(t.p.queue, t.p.clock) && HeadHolds(t)
    && forall i :: 0 <= i < |t.decided| ==> Prompt(t.decided[i])
  }

  lemma WindowStays(admitted: seq<int>, clock: int, now: int)
    requires Window(admitted, clock) && clock <= now
    ensures Window(admitted, now)
  {
  }

  lemma AskKeepsTimed(t: Timed, e: Event)
    requires TimedHolds(t) && e.Ask? && OnTime(t, e)
    ensures TimedHolds(Asked(t, e))
  {
    WindowStays(t.p.admitted, t.p.clock, e.now);
  }

  /** What the head's look finds, and what a sleep leaves for the next. */
  lemma LookFinds(t: Timed, now: int)
    requires TimedHolds(t) && t.p.queue != [] && t.due == Some(now)
    ensures var recent := Recent(t.p.admitted, now);
      && Window(recent, now) && (|recent| < LIMIT ==> Window(recent + [now], now))
      && match Decide(recent, false, t.p.queue[0].enqueued, now)
         case Sleep(ms) =>
           t.waits == 0 && ms >= 1 && now + ms <= t.p.queue[0].enqueued + PATIENCE_MS
           && |Recent(recent, now + ms)| < LIMIT
         case Refuse => t.waits == 0
         case Admit => true
  {
    WindowStays(t.p.admitted, t.p.clock, now);
    RecentWindow(t.p.admitted, now);
    var recent := Recent(t.p.admitted, now);
    if |recent| < LIMIT { AppendAscends(recent, now); }
    match Decide(recent, false, t.p.queue[0].enqueued, now) {
      case Sleep(ms) =>
        WindowStays(recent, now, now + ms);
        RecentWindow(recent, now + ms);
      case _ =>
    }
  }

  lemma LookKeepsTimed(t: Timed, e: Event)
    requires TimedHolds(t) && e.Look? && OnTime(t, e)
    ensures TimedHolds(Looked(t, e))
  {
    LookFinds(t, e.now);
    if Decide(Recent(t.p.admitted, e.now), false, t.p.queue[0].enqueued, e.now).Sleep? {
      SleepKeepsTimed(t, e);
    } else {
      VerdictKeepsTimed(t, e);
    }
  }

  lemma SleepKeepsTimed(t: Timed, e: Event)
    requires TimedHolds(t) && e.Look? && OnTime(t, e)
    requires Decide(Recent(t.p.admitted, e.now), false, t.p.queue[0].enqueued, e.now).Sleep?
    ensures TimedHolds(Looked(t, e))
  {
    LookFinds(t, e.now);
    assert Looked(t, e).p.queue == t.p.queue;
  }

  lemma VerdictKeepsTimed(t: Timed, e: Event)
    requires TimedHolds(t) && e.Look? && OnTime(t, e)
    requires !Decide(Recent(t.p.admitted, e.now), false, t.p.queue[0].enqueued, e.now).Sleep?
    ensures TimedHolds(Looked(t, e))
  {
    VerdictLeaves(t, e);
    NextHeadHolds(t, Looked(t, e), e.now);
  }

  /** What a verdict on the head changes. */
  predicate Decided(t: Timed, d: Timed, now: int)
    requires t.p.queue != []
  {
    && !d.p.stopped && d.p.clock == now && Window(d.p.admitted, now) && d.p.queue == t.p.queue[1..]
    && d.due == (if d.p.queue == [] then None else Some(now)) && d.waits == 0
    && |d.decided| == |t.decided| + 1 && d.decided[..|t.decided|] == t.decided && Prompt(d.decided[|t.decided|])
  }

  lemma VerdictLeaves(t: Timed, e: Event)
    requires TimedHolds(t) && e.Look? && OnTime(t, e)
    requires !Decide(Recent(t.p.admitted, e.now), false, t.p.queue[0].enqueued, e.now).Sleep?
    ensures Decided(t, Looked(t, e), e.now)
  {
    LookFinds(t, e.now);
  }

  lemma NextHeadHolds(t: Timed, d: Timed, now: int)
    requires TimedHolds(t) && t.p.queue != [] && t.due == Some(now) && Decided(t, d, now)
    ensures TimedHolds(d)
  {
    RestQueued(t.p.queue, t.p.clock, now);
    assert forall i :: 0 <= i < |t.decided| ==> d.decided[i] == d.decided[..|t.decided|][i];
  }

  lemma RestQueued(queue: seq<Request>, clock: int, now: int)
    requires QueuedInTime(queue, clock) && clock <= now && queue != []
    ensures QueuedInTime(queue[1..], now) && (queue[1..] != [] ==> queue[1..][0].enqueued >= queue[0].enqueued)
  {
    assert forall i :: 0 <= i < |queue| - 1 ==> queue[1..][i] == queue[i + 1];
  }

  lemma {:induction false} TimedRunHolds(t: Timed, events: seq<Event>)
    requires TimedHolds(t)
    ensures TimedHolds(TimedRun(t, events))
    ensures TimedRun(t, events).p == Run(t.p, Happening(t, events))
    decreases |events|
  {
    if events != [] {
      var e := events[0];
      if OnTime(t, e) {
        if e.Ask? { AskKeepsTimed(t, e); } else { LookKeepsTimed(t, e); }
        assert ([e] + Happening(TimedNext(t, e), events[1..]))[1..] == Happening(TimedNext(t, e), events[1..]);
      } else {
        assert [] + Happening(t, events[1..]) == Happening(t, events[1..]);
      }
      TimedRunHolds(TimedNext(t, e), events[1..]);
    }
  }

  /** With exact timers, in every run of the protocol and however requests come in between, each request
    * waits at most once and is decided within 15 s of queueing; while any is queued, the head's next look
    * is still ahead and due within the head's 15 s. */
  lemma QueueIsPrompt(clock: int, events: seq<Event>)
    ensures var t := TimedRun(TimedStart(clock), events);
      && t.p == Run(Initial(clock), Happening(TimedStart(clock), events))
      && (forall i :: 0 <= i < |t.decided| ==> Prompt(t.decided[i]))
      && (t.p.queue != [] ==>
        t.due.Some? && t.p.clock <= t.due.value <= t.p.queue[0].enqueued + PATIENCE_MS)
  {
    TimedRunHolds(TimedStart(clock), events);
  }

  /** The times of the requests in a list of events, and of the looks. */
  function AskTimes(events: seq<Event>): seq<int> {
    if events == [] then []
    else (if events[0].Ask? then [events[0].now] else []) + AskTimes(events[1..])
  }

  function LookTimes(events: seq<Event>): seq<int> {
    if events == [] then []
    else (if events[0].Look? then [events[0].now] else []) + LookTimes(events[1..])
  }

  /** A decision on request `i`: its own, queued when it was asked, taken at a look, and an admission where
    * the protocol admitted it, at that time. */
  predicate DecisionTied(p: Pacer, d: Decision, i: nat, asks: seq<int>, looks: seq<int>) {
    && d.id == i && i < |asks| && d.enqueued == asks[i] && d.at in looks
    && (d.admit <==> i in p.served)
    && (forall j :: 0 <= j < |p.served| && j < |p.times| && p.served[j] == i ==> p.times[j] == d.at)
  }

  predicate QueueTied(p: Pacer, asks: seq<int>) {
    && |asks| == p.asked
    && forall i :: 0 <= i < |p.queue| ==> p.queue[i].id < |asks| && p.queue[i].enqueued == asks[p.queue[i].id]
  }

  predicate Tied(t: Timed, asks: seq<int>, looks: seq<int>) {
    && OrderHolds(t.p) && QueueTied(t.p, asks) && |t.decided| == t.p.asked - |t.p.queue|
    && forall i :: 0 <= i < |t.decided| ==> DecisionTied(t.p, t.decided[i], i, asks, looks)
  }

  lemma AskKeepsTied(t: Timed, e: Event, asks: seq<int>, looks: seq<int>)
    requires Tied(t, asks, looks) && e.Ask? && OnTime(t, e)
    ensures Tied(TimedNext(t, e), asks + [e.now], looks)
  {
    NextKeepsOrder(t.p, e);
    var r := TimedNext(t, e);
    forall i | 0 <= i < |r.decided| ensures DecisionTied(r.p, r.decided[i], i, asks + [e.now], looks) {
      assert DecisionTied(t.p, t.decided[i], i, asks, looks);
    }
  }

  lemma LookKeepsTied(t: Timed, e: Event, asks: seq<int>, looks: seq<int>)
    requires Tied(t, asks, looks) && e.Look? && OnTime(t, e)
    ensures Tied(TimedNext(t, e), asks, looks + [e.now])
  {
    NextKeepsOrder(t.p, e);
    var r := TimedNext(t, e);
    var n := |t.decided|;
    assert t.p.queue[0].id == n && n !in t.p.served;
    forall i | 0 <= i < |r.decided| ensures DecisionTied(r.p, r.decided[i], i, asks, looks + [e.now]) {
      if i < n {
        EarlierStaysTied(t, e, i, asks, looks);
      } else {
        assert forall j :: 0 <= j < |t.p.served| ==> t.p.served[j] in t.p.served;
      }
    }
  }

  lemma EarlierStaysTied(t: Timed, e: Event, i: nat, asks: seq<int>, looks: seq<int>)
    requires Tied(t, asks, looks) && e.Look? && OnTime(t, e) && i < |t.decided|
    ensures var r := TimedNext(t, e); i < |r.decided| && DecisionTied(r.p, r.decided[i], i, asks, looks + [e.now])
  {
    assert DecisionTied(t.p, t.decided[i], i, asks, looks);
    assert t.p.queue[0].id == |t.decided|;
  }

  lemma {:induction false} RunKeepsTied(t: Timed, events: seq<Event>, asks: seq<int>, looks: seq<int>)
    requires Tied(t, asks, looks)
    ensures var h := Happening(t, events);
      Tied(TimedRun(t, events), asks + AskTimes(h), looks + LookTimes(h))
    decreases |events|
  {
    if events == [] {
      assert asks + [] == asks && looks + [] == looks;
    } else {
      var e, rest := events[0], events[1..];
      var more := Happening(TimedNext(t, e), rest);
      if !OnTime(t, e) {
        RunKeepsTied(t, rest, asks, looks);
        assert [] + more == more;
      } else {
        assert ([e] + more)[1..] == more;
        if e.Ask? {
          AskKeepsTied(t, e, asks, looks);
          RunKeepsTied(TimedNext(t, e), rest, asks + [e.now], looks);
          assert asks + [e.now] + AskTimes(more) == asks + ([e.now] + AskTimes(more));
          assert [] + LookTimes(more) == LookTimes(more);
        } else {
          LookKeepsTied(t, e, asks, looks);
          RunKeepsTied(TimedNext(t, e), rest, asks, looks + [e.now]);
          assert looks + [e.now] + LookTimes(more) == looks + ([e.now] + LookTimes(more));
          assert [] + AskTimes(more) == AskTimes(more);
        }
      }
    }
  }

  /** The decisions are the protocol's: one for each request that left the queue, in queue order, queued when
    * it was asked, taken at a look of the run, an admission exactly where the protocol admitted, then. */
  lemma DecisionsAreTheRuns(clock: int, events: seq<Event>)
    ensures var h := Happening(TimedStart(clock), events);
      Tied(TimedRun(TimedStart(clock), events), AskTimes(h), LookTimes(h))
  {
    RunKeepsTied(TimedStart(clock), events, [], []);
    var h := Happening(TimedStart(clock), events);
    assert [] + AskTimes(h) == AskTimes(h) && [] + LookTimes(h) == LookTimes(h);
  }
}
