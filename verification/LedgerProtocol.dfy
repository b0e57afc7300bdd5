/** The engagement ledger as a protocol: a bounded, hash-chained log whose writes are queued and may fail.
  *
  * Three things are related: the records accepted in memory, in call order; the queue of writes,
  * of which one at a time is in progress; and the bytes on file.  Appends, critical appends and the
  * close may come at any point of any write.
  */
module LedgerProtocol {
  import opened Options
  import opened EngagementChain

  const RESERVE_BYTES := 64 * 1024

  datatype Why = Full | WriteFailed

  /** What the task at the head of the queue is doing. */
  datatype Head = Idle | Writing | Syncing

  /** A critical append in progress: it waits for its own write, then for its own sync. */
  datatype Critical =
    | AwaitWrites(task: nat)
    | AwaitSync(task: nat, covers: nat)
    | Acknowledged(task: nat)
    | Refused

  datatype Ledger = Ledger(
    maxBytes: nat,
    prev: string,
    bytes: nat,
    dropped: nat,
    unavailable: Option<Why>,
    closed: bool,
    accepted: seq<Record>,
    closing: Option<Record>,
    done: nat,
    head: Head,
    file: string,
    durable: nat,
    criticals: seq<Critical>,
    notices: seq<Why>,
    appends: nat)

  function Created(maxBytes: nat): Ledger {
    Ledger(maxBytes, GENESIS, 0, 0, None, false, [], None, 0, Idle, "", 0, [], [], 0)
  }

  /** Every record ever handed to the write queue, in order; the first `done` are settled. */
  function Tasks(l: Ledger): seq<Record> {
    l.accepted + (if l.closing.Some? then [l.closing.value] else [])
  }

  function LineOf(f: Format, r: Record): string {
    f.encode(r) + "\n"
  }

  function RecordOf(f: Format, seqNo: nat, at: string, kind: string, data: string, prev: string): Record {
    var body := Body(seqNo, at, kind, data);
    Record(body, prev, f.hash(prev, body))
  }

  // --- Operations --------------------------------------------------------------------------

  /** One notice per reason, and none after `write_failed`. */
  function MarkUnavailable(l: Ledger, why: Why): Ledger {
    if l.unavailable == Some(WriteFailed) || l.unavailable == Some(why) then l
    else l.(unavailable := Some(why),
            notices := if l.unavailable.None? || why.WriteFailed? then l.notices + [why] else l.notices)
  }

  function Append(f: Format, l: Ledger, at: string, kind: string, data: string): Ledger {
    if l.closed then l
    else
      var r := RecordOf(f, |l.accepted|, at, kind, data, l.prev);
      if l.unavailable == Some(WriteFailed) || l.bytes + |LineOf(f, r)| > l.maxBytes then Drop(l)
      else Accept(f, l, r)
  }

  /** A record the ledger cannot take is counted; the first one that does not fit reports full. */
  function Drop(l: Ledger): Ledger {
    MarkUnavailable(l.(appends := l.appends + 1, dropped := l.dropped + 1), Full)
  }

  /** Link the record, count its bytes, queue its write, and report full once the reserve is reached. */
  function Accept(f: Format, l: Ledger, r: Record): Ledger {
    var taken := l.(appends := l.appends + 1, prev := r.hash,
                    bytes := l.bytes + |LineOf(f, r)|, accepted := l.accepted + [r]);
    if taken.bytes >= l.maxBytes - RESERVE_BYTES then MarkUnavailable(taken, Full) else taken
  }

  predicate Usable(l: Ledger) {
    !l.closed && l.unavailable.None?
  }

  /** The call of a critical append, up to its first suspension. */
  function StartCritical(f: Format, l: Ledger, at: string, kind: string, data: string): Ledger {
    if !Usable(l) then l.(criticals := l.criticals + [Refused])
    else
      var before := |l.accepted|;
      var appended := Append(f, l, at, kind, data);
      appended.(criticals := appended.criticals + [
        if |appended.accepted| <= before then Refused else AwaitWrites(before)])
  }

  /** Its own write has settled: it syncs, or throws. */
  function ResumeCritical(l: Ledger, c: nat): Ledger
    requires c < |l.criticals|
  {
    if l.criticals[c].AwaitWrites? && l.criticals[c].task < l.done then
      l.(criticals := l.criticals[c := if Usable(l) then AwaitSync(l.criticals[c].task, |l.file|) else Refused])
    else l
  }

  function CriticalSynced(l: Ledger, c: nat, ok: bool): Ledger
    requires c < |l.criticals|
  {
    if !l.criticals[c].AwaitSync? then l
    else if !ok then MarkUnavailable(l, WriteFailed).(criticals := l.criticals[c := Refused])
    else
      l.(durable := if l.durable < l.criticals[c].covers then l.criticals[c].covers else l.durable,
         criticals := l.criticals[c := if Usable(l) then Acknowledged(l.criticals[c].task) else Refused])
  }

  function ClosingData(close: (nat, nat, Option<Why>) -> string, l: Ledger): string {
    close(|l.accepted|, l.dropped, l.unavailable)
  }

  function Close(f: Format, l: Ledger, at: string, close: (nat, nat, Option<Why>) -> string): Ledger {
    if l.closed then l
    else l.(closed := true,
            closing := Some(RecordOf(f, |l.accepted|, at, CLOSED, ClosingData(close, l), l.prev)))
  }

  /** The next task starts when the one before it has settled; it does nothing once a write failed. */
  function StartTask(l: Ledger): Ledger {
    if !l.head.Idle? || l.done >= |Tasks(l)| then l
    else if l.unavailable == Some(WriteFailed) then l.(done := l.done + 1)
    else l.(head := Writing)
  }

  predicate IsClosing(l: Ledger, task: nat) {
    task >= |l.accepted|
  }

  /** A write puts some prefix of its line on file and returns its length, or throws.  The failure
    * of the closing record is recorded without a notice. */
  function WriteReturns(f: Format, l: Ledger, n: nat, threw: bool): Ledger
    requires l.head.Writing? && l.done < |Tasks(l)| && n <= |LineOf(f, Tasks(l)[l.done])|
  {
    var line := LineOf(f, Tasks(l)[l.done]);
    var written := l.(file := l.file + line[..n], head := Idle, done := l.done + 1);
    if !threw && n == |line| then
      (if IsClosing(l, l.done) then written.(head := Syncing, done := l.done) else written)
    else if IsClosing(l, l.done) then written.(unavailable := Some(WriteFailed))
    else MarkUnavailable(written, WriteFailed)
  }

  function ClosingSynced(l: Ledger, ok: bool): Ledger {
    if !l.head.Syncing? then l
    else if ok then l.(head := Idle, done := l.done + 1, durable := |l.file|)
    else l.(head := Idle, done := l.done + 1, unavailable := Some(WriteFailed))
  }

  // --- One event ---------------------------------------------------------------------------------

  datatype Event =
    | AppendCalled(at: string, kind: string, data: string)
    | CriticalCalled(at: string, kind: string, data: string)
    | CriticalResumes(critical: nat)
    | CriticalSyncDone(critical: nat, ok: bool)
    | CloseCalled(at: string)
    | TaskStarts
    | WriteDone(n: nat, threw: bool)
    | ClosingSyncDone(ok: bool)

  function Next(f: Format, close: (nat, nat, Option<Why>) -> string, l: Ledger, e: Event): Ledger {
    match e
    case AppendCalled(at, kind, data) => Append(f, l, at, kind, data)
    case CriticalCalled(at, kind, data) => StartCritical(f, l, at, kind, data)
    case CriticalResumes(c) => if c < |l.criticals| then ResumeCritical(l, c) else l
    case CriticalSyncDone(c, ok) => if c < |l.criticals| then CriticalSynced(l, c, ok) else l
    case CloseCalled(at) => Close(f, l, at, close)
    case TaskStarts => StartTask(l)
    case WriteDone(n, threw) =>
      if l.head.Writing? && l.done < |Tasks(l)| && n <= |LineOf(f, Tasks(l)[l.done])|
      then WriteReturns(f, l, n, threw) else l
    case ClosingSyncDone(ok) => ClosingSynced(l, ok)
  }

  function Run(f: Format, close: (nat, nat, Option<Why>) -> string, l: Ledger, events: seq<Event>): Ledger
    decreases |events|
  {
    if events == [] then l else Run(f, close, Next(f, close, l, events[0]), events[1..])
  }

  /** What no step takes back: accepted records, and the way from open over full to write-failed. */
  predicate Follows(l: Ledger, m: Ledger) {
    && m.maxBytes == l.maxBytes
    && l.accepted <= m.accepted
    && l.file <= m.file
    && l.durable <= m.durable
    && l.notices <= m.notices
    && (l.closed ==> m.closed && m.accepted == l.accepted && m.closing == l.closing && m.dropped == l.dropped)
    && (l.unavailable == Some(WriteFailed) ==> m.unavailable == Some(WriteFailed))
    && (l.unavailable == Some(Full) ==> m.unavailable.Some?)
  }

  // --- What every step keeps --------------------------------------------------------------------

  ghost predicate ChainHolds(f: Format, close: (nat, nat, Option<Why>) -> string, l: Ledger) {
    && Chained(f, l.accepted)
    && l.prev == PrevOf(l.accepted, |l.accepted|)
    && (l.closing.Some? <==> l.closed)
    && (l.closing.Some? ==>
          && Chained(f, Tasks(l))
          && l.closing.value.body.kind == CLOSED
          && exists state :: l.closing.value.body.data == close(|l.accepted|, l.dropped, state))
  }

  /** Which bytes are on file: whole lines in call order, and a torn one only after a failed write. */
  ghost predicate FileHolds(f: Format, l: Ledger) {
    && l.done <= |Tasks(l)|
    && (!l.head.Idle? ==> l.done < |Tasks(l)|)
    && (l.head.Syncing? ==> l.closed && l.done == |l.accepted| && l.file == Text(f, Tasks(l)))
    && (l.head.Writing? || (l.head.Idle? && l.unavailable != Some(WriteFailed)) ==>
          l.file == Text(f, Tasks(l)[..l.done]))
    && l.file <= Text(f, Tasks(l))
    && l.durable <= |l.file|
  }

  ghost predicate AccountsHold(f: Format, l: Ledger) {
    && l.bytes == |Text(f, l.accepted)| <= l.maxBytes
    && |l.accepted| + l.dropped == l.appends
    && (l.unavailable.None? ==> l.dropped == 0)
    && (l.unavailable.None? && l.accepted != [] ==> l.bytes + RESERVE_BYTES < l.maxBytes)
  }

  /** At most one notice per reason; only a failed close goes unannounced. */
  predicate NoticesHold(l: Ledger) {
    match l.unavailable
    case None => l.notices == []
    case Some(Full) => l.notices == [Full]
    case Some(WriteFailed) =>
      || l.notices == [WriteFailed]
      || l.notices == [Full, WriteFailed]
      || (l.closed && (l.notices == [] || l.notices == [Full]))
  }

  /** What a critical append has been promised so far. */
  ghost predicate CriticalHolds(f: Format, accepted: seq<Record>, file: string, durable: nat, c: Critical) {
    match c
    case AwaitWrites(task) => task < |accepted|
    case AwaitSync(task, covers) =>
      && task < |accepted|
      && covers <= |file|
      && Text(f, accepted[..task + 1]) <= file[..covers]
    case Acknowledged(task) =>
      && task < |accepted|
      && durable <= |file|
      && Text(f, accepted[..task + 1]) <= file[..durable]
    case Refused => true
  }

  ghost predicate CriticalsHold(f: Format, l: Ledger) {
    forall i :: 0 <= i < |l.criticals| ==> CriticalHolds(f, l.accepted, l.file, l.durable, l.criticals[i])
  }

  ghost predicate Inv(f: Format, close: (nat, nat, Option<Why>) -> string, l: Ledger) {
    ChainHolds(f, close, l) && FileHolds(f, l) && AccountsHold(f, l) && NoticesHold(l) && CriticalsHold(f, l)
  }

  lemma CreatedHolds(f: Format, close: (nat, nat, Option<Why>) -> string, maxBytes: nat)
    ensures Inv(f, close, Created(maxBytes))
  {
  }

  /** A record that is next in the chain. */
  predicate IsNext(f: Format, l: Ledger, r: Record) {
    r.body.seqNo == |l.accepted| && r.prev == l.prev && r.hash == f.hash(r.prev, r.body)
  }

  lemma AcceptKeepsFile(f: Format, l: Ledger, r: Record)
    requires FileHolds(f, l) && !l.closed && l.closing.None?
    ensures FileHolds(f, Accept(f, l, r))
  {
    var m := Accept(f, l, r);
    assert Tasks(m)[..l.done] == Tasks(l)[..l.done];
    assert Tasks(m)[..|l.accepted|] == Tasks(l);
    TextOfPrefix(f, Tasks(m), |l.accepted|);
  }

  lemma AcceptKeepsCriticals(f: Format, l: Ledger, r: Record)
    requires CriticalsHold(f, l)
    ensures CriticalsHold(f, Accept(f, l, r))
  {
    var m := Accept(f, l, r);
    forall i | 0 <= i < |m.criticals|
      ensures CriticalHolds(f, m.accepted, m.file, m.durable, m.criticals[i])
    {
      assert CriticalHolds(f, l.accepted, l.file, l.durable, l.criticals[i]);
      if !l.criticals[i].Refused? {
        var task := l.criticals[i].task;
        assert m.accepted[..task + 1] == l.accepted[..task + 1];
      }
    }
  }

  lemma AcceptKeepsAccounts(f: Format, l: Ledger, r: Record)
    requires AccountsHold(f, l) && l.bytes + |LineOf(f, r)| <= l.maxBytes
    ensures AccountsHold(f, Accept(f, l, r))
  {
    var longer := l.accepted + [r];
    assert longer[..|l.accepted|] == l.accepted && longer[..|l.accepted| + 1] == longer;
    TextOfNext(f, longer, |l.accepted|);
  }

  lemma AcceptKeepsInv(f: Format, close: (nat, nat, Option<Why>) -> string, l: Ledger, r: Record)
    requires Inv(f, close, l)
    requires !l.closed && l.unavailable != Some(WriteFailed) && IsNext(f, l, r)
    requires l.bytes + |LineOf(f, r)| <= l.maxBytes
    ensures Inv(f, close, Accept(f, l, r))
  {
    ChainedExtends(f, l.accepted, r);
    AcceptKeepsFile(f, l, r);
    AcceptKeepsCriticals(f, l, r);
    AcceptKeepsAccounts(f, l, r);
  }

  lemma DropKeepsInv(f: Format, close: (nat, nat, Option<Why>) -> string, l: Ledger)
    requires Inv(f, close, l) && !l.closed
    ensures Inv(f, close, Drop(l))
  {
  }

  lemma AppendKeepsInv(
    f: Format, close: (nat, nat, Option<Why>) -> string, l: Ledger, at: string, kind: string, data: string)
    requires Inv(f, close, l)
    ensures Inv(f, close, Append(f, l, at, kind, data))
  {
    if !l.closed {
      var r := RecordOf(f, |l.accepted|, at, kind, data, l.prev);
      if l.unavailable == Some(WriteFailed) || l.bytes + |LineOf(f, r)| > l.maxBytes {
        DropKeepsInv(f, close, l);
      } else {
        AcceptKeepsInv(f, close, l, r);
      }
    }
  }

  lemma StartCriticalKeepsInv(
    f: Format, close: (nat, nat, Option<Why>) -> string, l: Ledger, at: string, kind: string, data: string)
    requires Inv(f, close, l)
    ensures Inv(f, close, StartCritical(f, l, at, kind, data))
  {
    var m := Append(f, l, at, kind, data);
    AppendKeepsInv(f, close, l, at, kind, data);
    assert CriticalsHold(f, m);
    if Usable(l) && |m.accepted| > |l.accepted| {
      assert CriticalHolds(f, m.accepted, m.file, m.durable, AwaitWrites(|l.accepted|));
    }
  }

  lemma ResumeKeepsInv(f: Format, close: (nat, nat, Option<Why>) -> string, l: Ledger, c: nat)
    requires Inv(f, close, l) && c < |l.criticals|
    ensures Inv(f, close, ResumeCritical(l, c))
  {
    if l.criticals[c].AwaitWrites? && l.criticals[c].task < l.done && Usable(l) {
      var task := l.criticals[c].task;
      assert CriticalHolds(f, l.accepted, l.file, l.durable, l.criticals[c]);
      assert l.accepted[..l.done][..task + 1] == l.accepted[..task + 1];
      TextOfPrefix(f, l.accepted[..l.done], task + 1);
      assert Tasks(l) == l.accepted;
      assert l.file[..|l.file|] == l.file;
    }
  }

  /** Promises survive as the file grows and more of it becomes durable. */
  lemma PromisesCarryOver(f: Format, l: Ledger, file: string, durable: nat)
    requires CriticalsHold(f, l) && l.file <= file && l.durable <= durable <= |file|
    ensures forall i :: 0 <= i < |l.criticals| ==> CriticalHolds(f, l.accepted, file, durable, l.criticals[i])
  {
    forall i | 0 <= i < |l.criticals|
      ensures CriticalHolds(f, l.accepted, file, durable, l.criticals[i])
    {
      var c := l.criticals[i];
      assert CriticalHolds(f, l.accepted, l.file, l.durable, c);
      if c.AwaitSync? { assert file[..c.covers] == l.file[..c.covers]; }
      if c.Acknowledged? { assert l.file[..l.durable] <= file[..durable]; }
    }
  }

  lemma SyncedKeepsCriticals(f: Format, l: Ledger, c: nat, ok: bool)
    requires CriticalsHold(f, l) && c < |l.criticals| && l.durable <= |l.file|
    ensures CriticalsHold(f, CriticalSynced(l, c, ok))
  {
    if l.criticals[c].AwaitSync? {
      assert CriticalHolds(f, l.accepted, l.file, l.durable, l.criticals[c]);
      var covers := l.criticals[c].covers;
      var durable := if ok && l.durable < covers then covers else l.durable;
      PromisesCarryOver(f, l, l.file, durable);
      assert l.file[..covers] <= l.file[..durable] || !ok;
    }
  }

  lemma SyncedKeepsInv(f: Format, close: (nat, nat, Option<Why>) -> string, l: Ledger, c: nat, ok: bool)
    requires Inv(f, close, l) && c < |l.criticals|
    ensures Inv(f, close, CriticalSynced(l, c, ok))
  {
    SyncedKeepsCriticals(f, l, c, ok);
    assert CriticalHolds(f, l.accepted, l.file, l.durable, l.criticals[c]);
  }

  lemma CloseKeepsInv(f: Format, close: (nat, nat, Option<Why>) -> string, l: Ledger, at: string)
    requires Inv(f, close, l)
    ensures Inv(f, close, Close(f, l, at, close))
  {
    if !l.closed {
      var m := Close(f, l, at, close);
      ChainedExtends(f, l.accepted, m.closing.value);
      assert Tasks(m)[..|l.accepted|] == l.accepted && Tasks(l) == l.accepted;
      assert Tasks(m)[..l.done] == Tasks(l)[..l.done];
      TextOfPrefix(f, Tasks(m), |l.accepted|);
      assert m.closing.value.body.data == close(|m.accepted|, m.dropped, l.unavailable);
    }
  }

  lemma StartTaskKeepsInv(f: Format, close: (nat, nat, Option<Why>) -> string, l: Ledger)
    requires Inv(f, close, l)
    ensures Inv(f, close, StartTask(l))
  {
  }

  lemma ClosingSyncKeepsInv(f: Format, close: (nat, nat, Option<Why>) -> string, l: Ledger, ok: bool)
    requires Inv(f, close, l)
    ensures Inv(f, close, ClosingSynced(l, ok))
  {
    if l.head.Syncing? {
      assert Tasks(l)[..l.done + 1] == Tasks(l);
      PromisesCarryOver(f, l, l.file, |l.file|);
    }
  }

  /** What one line adds: with it, the file is the text of one task more, and ever a part of the whole. */
  lemma LineExtendsFile(f: Format, tasks: seq<Record>, done: nat, n: nat)
    requires done < |tasks| && n <= |LineOf(f, tasks[done])|
    ensures Text(f, tasks[..done]) + LineOf(f, tasks[done]) == Text(f, tasks[..done + 1])
    ensures Text(f, tasks[..done]) + LineOf(f, tasks[done])[..n] <= Text(f, tasks)
  {
    TextOfNext(f, tasks, done);
    TextOfPrefix(f, tasks, done + 1);
    var line := LineOf(f, tasks[done]);
    PartOfPrefix(Text(f, tasks[..done]), line, n, Text(f, tasks));
  }

  lemma PartOfPrefix(before: string, line: string, n: nat, whole: string)
    requires before + line <= whole && n <= |line|
    ensures before + line[..n] <= whole
  {
    assert before + line[..n] == (before + line)[..|before| + n];
  }

  lemma WriteKeepsFile(f: Format, l: Ledger, n: nat, threw: bool)
    requires FileHolds(f, l) && (l.closing.Some? <==> l.closed)
    requires l.head.Writing? && l.done < |Tasks(l)| && n <= |LineOf(f, Tasks(l)[l.done])|
    ensures FileHolds(f, WriteReturns(f, l, n, threw))
  {
    var line := LineOf(f, Tasks(l)[l.done]);
    LineExtendsFile(f, Tasks(l), l.done, n);
    assert Tasks(WriteReturns(f, l, n, threw)) == Tasks(l);
    if n == |line| { assert line[..n] == line; }
    if l.done + 1 == |Tasks(l)| { assert Tasks(l)[..l.done + 1] == Tasks(l); }
  }

  lemma WriteKeepsBooks(f: Format, l: Ledger, n: nat, threw: bool)
    requires NoticesHold(l) && (l.closing.Some? <==> l.closed)
    requires l.head.Writing? && l.done < |Tasks(l)| && n <= |LineOf(f, Tasks(l)[l.done])|
    ensures var m := WriteReturns(f, l, n, threw);
            && m.(file := l.file, head := l.head, done := l.done, unavailable := l.unavailable, notices := l.notices) == l
            && NoticesHold(m)
            && (m.unavailable == l.unavailable || m.unavailable == Some(WriteFailed))
            && Follows(l, m)
  {
  }

  lemma WriteKeepsInv(f: Format, close: (nat, nat, Option<Why>) -> string, l: Ledger, n: nat, threw: bool)
    requires Inv(f, close, l)
    requires l.head.Writing? && l.done < |Tasks(l)| && n <= |LineOf(f, Tasks(l)[l.done])|
    ensures Inv(f, close, WriteReturns(f, l, n, threw))
  {
    var m := WriteReturns(f, l, n, threw);
    WriteKeepsBooks(f, l, n, threw);
    WriteKeepsFile(f, l, n, threw);
    PromisesCarryOver(f, l, m.file, l.durable);
  }

  lemma NextKeepsInv(f: Format, close: (nat, nat, Option<Why>) -> string, l: Ledger, e: Event)
    requires Inv(f, close, l)
    ensures Inv(f, close, Next(f, close, l, e))
  {
    match e
    case AppendCalled(at, kind, data) => AppendKeepsInv(f, close, l, at, kind, data);
    case CriticalCalled(at, kind, data) => StartCriticalKeepsInv(f, close, l, at, kind, data);
    case CriticalResumes(c) => if c < |l.criticals| { ResumeKeepsInv(f, close, l, c); }
    case CriticalSyncDone(c, ok) => if c < |l.criticals| { SyncedKeepsInv(f, close, l, c, ok); }
    case CloseCalled(at) => CloseKeepsInv(f, close, l, at);
    case TaskStarts => StartTaskKeepsInv(f, close, l);
    case WriteDone(n, threw) =>
      if l.head.Writing? && l.done < |Tasks(l)| && n <= |LineOf(f, Tasks(l)[l.done])| {
        WriteKeepsInv(f, close, l, n, threw);
      }
    case ClosingSyncDone(ok) => ClosingSyncKeepsInv(f, close, l, ok);
  }

  // --- Main results ----------------------------------------------------------------------------------

  lemma AppendFollows(f: Format, l: Ledger, at: string, kind: string, data: string)
    ensures Follows(l, Append(f, l, at, kind, data))
  {
  }

  lemma TaskFollows(l: Ledger, ok: bool)
    requires l.durable <= |l.file|
    ensures Follows(l, StartTask(l)) && Follows(l, ClosingSynced(l, ok))
  {
  }

  lemma CriticalFollows(l: Ledger, c: nat, ok: bool)
    requires c < |l.criticals|
    ensures Follows(l, ResumeCritical(l, c)) && Follows(l, CriticalSynced(l, c, ok))
  {
  }

  lemma CloseFollows(f: Format, close: (nat, nat, Option<Why>) -> string, l: Ledger, at: string)
    requires l.closing.Some? <==> l.closed
    ensures Follows(l, Close(f, l, at, close))
  {
  }

  lemma NextFollows(f: Format, close: (nat, nat, Option<Why>) -> string, l: Ledger, e: Event)
    requires Inv(f, close, l)
    ensures Follows(l, Next(f, close, l, e))
  {
    match e {
      case AppendCalled(at, kind, data) => AppendFollows(f, l, at, kind, data);
      case CriticalCalled(at, kind, data) => AppendFollows(f, l, at, kind, data);
      case CriticalResumes(c) => if c < |l.criticals| { CriticalFollows(l, c, true); }
      case CriticalSyncDone(c, ok) => if c < |l.criticals| { CriticalFollows(l, c, ok); }
      case CloseCalled(at) => CloseFollows(f, close, l, at);
      case WriteDone(n, threw) =>
        if l.head.Writing? && n <= |LineOf(f, Tasks(l)[l.done])| { WriteKeepsBooks(f, l, n, threw); }
      case TaskStarts => TaskFollows(l, true);
      case ClosingSyncDone(ok) => TaskFollows(l, ok);
    }
  }

  lemma {:induction false} RunKeepsInv(f: Format, close: (nat, nat, Option<Why>) -> string, l: Ledger, events: seq<Event>)
    requires Inv(f, close, l)
    ensures Inv(f, close, Run(f, close, l, events)) && Follows(l, Run(f, close, l, events))
    decreases |events|
  {
    if events != [] {
      NextKeepsInv(f, close, l, events[0]);
      NextFollows(f, close, l, events[0]);
      RunKeepsInv(f, close, Next(f, close, l, events[0]), events[1..]);
    }
  }

  /** At every moment the file is a prefix of the accepted records' lines in call order, with record
    * `i` at sequence number `i` and linked to its predecessor; unless a write failed, it ends at the
    * end of a line. */
  lemma FileIsPrefixOfChain(f: Format, close: (nat, nat, Option<Why>) -> string, maxBytes: nat, events: seq<Event>)
    ensures var l := Run(f, close, Created(maxBytes), events);
            && Chained(f, Tasks(l))
            && l.file <= Text(f, Tasks(l))
            && (l.unavailable != Some(WriteFailed) ==>
                  exists k: nat :: k <= |Tasks(l)| && l.file == Text(f, Tasks(l)[..k]))
  {
    var l := Run(f, close, Created(maxBytes), events);
    CreatedHolds(f, close, maxBytes);
    RunKeepsInv(f, close, Created(maxBytes), events);
    assert l.closing.None? ==> Tasks(l) == l.accepted;
    if l.head.Syncing? {
      assert Tasks(l)[..|Tasks(l)|] == Tasks(l);
    }
  }

  /** A critical append returns normally only when its own record and every earlier one are wholly on
    * file and covered by a sync that began after they were written. */
  lemma AcknowledgedIsDurable(f: Format, close: (nat, nat, Option<Why>) -> string, maxBytes: nat, events: seq<Event>, c: nat)
    requires c < |Run(f, close, Created(maxBytes), events).criticals|
    requires Run(f, close, Created(maxBytes), events).criticals[c].Acknowledged?
    ensures var l := Run(f, close, Created(maxBytes), events);
            var task := l.criticals[c].task;
            task < |l.accepted| && l.durable <= |l.file| && Text(f, l.accepted[..task + 1]) <= l.file[..l.durable]
  {
    CreatedHolds(f, close, maxBytes);
    RunKeepsInv(f, close, Created(maxBytes), events);
    AcknowledgedIsHeld(f, close, Run(f, close, Created(maxBytes), events), c);
  }

  lemma AcknowledgedIsHeld(f: Format, close: (nat, nat, Option<Why>) -> string, l: Ledger, c: nat)
    requires Inv(f, close, l) && c < |l.criticals| && l.criticals[c].Acknowledged?
    ensures var task := l.criticals[c].task;
            task < |l.accepted| && l.durable <= |l.file| && Text(f, l.accepted[..task + 1]) <= l.file[..l.durable]
  {
    assert CriticalHolds(f, l.accepted, l.file, l.durable, l.criticals[c]);
  }

  /** Accepted bytes are the accepted lines and never exceed the bound; while open nothing was dropped
    * and more than the reserve is left; each reason is announced at most once. */
  lemma AccountsAreExact(f: Format, close: (nat, nat, Option<Why>) -> string, maxBytes: nat, events: seq<Event>)
    ensures var l := Run(f, close, Created(maxBytes), events);
            && l.bytes == |Text(f, l.accepted)| <= maxBytes
            && |l.accepted| + l.dropped == l.appends
            && (l.unavailable.None? ==> l.dropped == 0 && (l.accepted != [] ==> l.bytes + RESERVE_BYTES < maxBytes))
            && l.notices in [[], [Full], [WriteFailed], [Full, WriteFailed]]
  {
    CreatedHolds(f, close, maxBytes);
    RunKeepsInv(f, close, Created(maxBytes), events);
  }

  lemma {:induction false} RunSplits(
    f: Format, close: (nat, nat, Option<Why>) -> string, l: Ledger, first: seq<Event>, rest: seq<Event>)
    ensures Run(f, close, l, first + rest) == Run(f, close, Run(f, close, l, first), rest)
    decreases |first|
  {
    if first == [] {
      assert first + rest == rest;
    } else {
      assert (first + rest)[1..] == first[1..] + rest;
      RunSplits(f, close, Next(f, close, l, first[0]), first[1..], rest);
    }
  }

  /** The ledger after the first `k` events. */
  function At(f: Format, close: (nat, nat, Option<Why>) -> string, maxBytes: nat, events: seq<Event>, k: nat): Ledger
    requires k <= |events|
  {
    Run(f, close, Created(maxBytes), events[..k])
  }

  lemma AtHolds(f: Format, close: (nat, nat, Option<Why>) -> string, maxBytes: nat, events: seq<Event>, k: nat)
    requires k <= |events|
    ensures Inv(f, close, At(f, close, maxBytes, events, k))
  {
    CreatedHolds(f, close, maxBytes);
    RunKeepsInv(f, close, Created(maxBytes), events[..k]);
  }

  lemma RunOneMore(
    f: Format, close: (nat, nat, Option<Why>) -> string, l: Ledger, events: seq<Event>, e: Event)
    ensures Run(f, close, l, events + [e]) == Next(f, close, Run(f, close, l, events), e)
  {
    RunSplits(f, close, l, events, [e]);
    RunOfOne(f, close, Run(f, close, l, events), e);
  }

  lemma AtNext(f: Format, close: (nat, nat, Option<Why>) -> string, maxBytes: nat, events: seq<Event>, k: nat)
    requires k < |events|
    ensures At(f, close, maxBytes, events, k + 1) == Next(f, close, At(f, close, maxBytes, events, k), events[k])
  {
    assert events[..k + 1] == events[..k] + [events[k]];
    RunOneMore(f, close, Created(maxBytes), events[..k], events[k]);
  }

  /** The next moment announces what its event does. */
  lemma AtAnnounces(f: Format, close: (nat, nat, Option<Why>) -> string, maxBytes: nat, events: seq<Event>, k: nat)
    requires k < |events|
    ensures var l := At(f, close, maxBytes, events, k);
      NoticesHold(l) && Announces(f, l, events[k], At(f, close, maxBytes, events, k + 1))
  {
    AtHolds(f, close, maxBytes, events, k);
    AtNext(f, close, maxBytes, events, k);
    NextNotices(f, close, At(f, close, maxBytes, events, k), events[k]);
  }

  lemma AtFollows(f: Format, close: (nat, nat, Option<Why>) -> string, maxBytes: nat, events: seq<Event>, k: nat)
    requires k < |events|
    ensures Follows(At(f, close, maxBytes, events, k), At(f, close, maxBytes, events, k + 1))
  {
    AtHolds(f, close, maxBytes, events, k);
    AtNext(f, close, maxBytes, events, k);
    NextFollows(f, close, At(f, close, maxBytes, events, k), events[k]);
  }

  function Rank(state: Option<Why>): nat {
    match state
    case None => 0
    case Some(Full) => 1
    case Some(WriteFailed) => 2
  }

  lemma FollowsMovesOn(l: Ledger, m: Ledger)
    requires Follows(l, m)
    ensures Rank(l.unavailable) <= Rank(m.unavailable)
  {
  }

  /** Between any two moments of a run the state moves only from open over full to write-failed. */
  lemma {:induction false} StateOnlyMovesOn(
    f: Format, close: (nat, nat, Option<Why>) -> string, maxBytes: nat, events: seq<Event>, i: nat, j: nat)
    requires i <= j <= |events|
    ensures Rank(At(f, close, maxBytes, events, i).unavailable) <= Rank(At(f, close, maxBytes, events, j).unavailable)
    decreases j
  {
    if i < j {
      StateOnlyMovesOn(f, close, maxBytes, events, i, j - 1);
      AtFollows(f, close, maxBytes, events, j - 1);
      FollowsMovesOn(At(f, close, maxBytes, events, j - 1), At(f, close, maxBytes, events, j));
    }
  }

  /** Bytes reach the file while a write is in progress: at every such moment too it is a prefix. */
  lemma FileIsPrefixDuringWrites(
    f: Format, close: (nat, nat, Option<Why>) -> string, maxBytes: nat, events: seq<Event>, n: nat)
    requires var l := Run(f, close, Created(maxBytes), events);
      l.head.Writing? && l.done < |Tasks(l)| && n <= |LineOf(f, Tasks(l)[l.done])|
    ensures var l := Run(f, close, Created(maxBytes), events);
      l.file + LineOf(f, Tasks(l)[l.done])[..n] <= Text(f, Tasks(l))
  {
    CreatedHolds(f, close, maxBytes);
    RunKeepsInv(f, close, Created(maxBytes), events);
    var l := Run(f, close, Created(maxBytes), events);
    LineExtendsFile(f, Tasks(l), l.done, n);
  }

  // --- When the ledger is announced unavailable ---------------------------------------------------

  /** The write of a record, or the sync of a critical append, fails. */
  predicate FailsRecord(f: Format, l: Ledger, e: Event) {
    match e
    case WriteDone(n, threw) =>
      && l.head.Writing? && l.done < |Tasks(l)| && n <= |LineOf(f, Tasks(l)[l.done])|
      && !IsClosing(l, l.done) && (threw || n < |LineOf(f, Tasks(l)[l.done])|)
    case CriticalSyncDone(c, ok) => c < |l.criticals| && l.criticals[c].AwaitSync? && !ok
    case _ => false
  }

  /** The write of the closing record, or its sync, fails. */
  predicate FailsClosing(f: Format, l: Ledger, e: Event) {
    match e
    case WriteDone(n, threw) =>
      && l.head.Writing? && l.done < |Tasks(l)| && n <= |LineOf(f, Tasks(l)[l.done])|
      && IsClosing(l, l.done) && (threw || n < |LineOf(f, Tasks(l)[l.done])|)
    case ClosingSyncDone(ok) => l.head.Syncing? && !ok
    case _ => false
  }

  /** An append does not fit, or leaves no more than the reserve. */
  predicate FillsUp(f: Format, l: Ledger, e: Event) {
    (e.AppendCalled? || e.CriticalCalled?) && !l.closed
    && l.bytes + |LineOf(f, RecordOf(f, |l.accepted|, e.at, e.kind, e.data, l.prev))| + RESERVE_BYTES >= l.maxBytes
  }

  lemma MarkNotices(l: Ledger)
    ensures var m := MarkUnavailable(l, Full);
      if l.unavailable.None? then m.notices == l.notices + [Full] && m.unavailable == Some(Full)
      else m.notices == l.notices && m.unavailable == l.unavailable
  {
    match l.unavailable
    case None =>
    case Some(Full) =>
    case Some(WriteFailed) =>
  }

  lemma AppendNotices(f: Format, l: Ledger, at: string, kind: string, data: string)
    ensures Announces(f, l, AppendCalled(at, kind, data), Append(f, l, at, kind, data))
    ensures Announces(f, l, CriticalCalled(at, kind, data), Append(f, l, at, kind, data))
  {
    if !l.closed {
      var r := RecordOf(f, |l.accepted|, at, kind, data, l.prev);
      if l.unavailable == Some(WriteFailed) || l.bytes + |LineOf(f, r)| > l.maxBytes {
        MarkNotices(l.(appends := l.appends + 1, dropped := l.dropped + 1));
        assert Append(f, l, at, kind, data) == Drop(l);
      } else {
        MarkNotices(l.(appends := l.appends + 1, prev := r.hash,
          bytes := l.bytes + |LineOf(f, r)|, accepted := l.accepted + [r]));
        assert Append(f, l, at, kind, data) == Accept(f, l, r);
      }
    }
  }

  /** What one step announces, and how it moves the state. */
  predicate Announces(f: Format, l: Ledger, e: Event, m: Ledger) {
    if FailsFirst(f, l, e) then m.notices == l.notices + [WriteFailed] && m.unavailable == Some(WriteFailed)
    else if FailsClosing(f, l, e) then m.notices == l.notices && m.unavailable == Some(WriteFailed)
    else if FillsFirst(f, l, e) then m.notices == l.notices + [Full] && m.unavailable == Some(Full)
    else m.notices == l.notices && m.unavailable == l.unavailable
  }

  lemma WriteNotices(f: Format, l: Ledger, n: nat, threw: bool)
    requires l.head.Writing? && l.done < |Tasks(l)| && n <= |LineOf(f, Tasks(l)[l.done])|
    ensures Announces(f, l, WriteDone(n, threw), WriteReturns(f, l, n, threw))
  {
  }

  lemma NextNotices(f: Format, close: (nat, nat, Option<Why>) -> string, l: Ledger, e: Event)
    ensures Announces(f, l, e, Next(f, close, l, e))
  {
    match e {
      case AppendCalled(at, kind, data) => AppendNotices(f, l, at, kind, data);
      case CriticalCalled(at, kind, data) => AppendNotices(f, l, at, kind, data);
      case WriteDone(n, threw) =>
        if l.head.Writing? && l.done < |Tasks(l)| && n <= |LineOf(f, Tasks(l)[l.done])| {
          WriteNotices(f, l, n, threw);
        }
      case _ =>
    }
  }

  /** How the notices so far follow from what happened so far. */
  predicate Explained(notices: seq<Why>, filled: bool, failed: bool, failedFull: bool) {
    (Full in notices <==> filled) && (WriteFailed in notices <==> failed)
    && (notices == [Full, WriteFailed] <==> failedFull)
  }

  lemma StepExplained(f: Format, l: Ledger, e: Event, m: Ledger, filled: bool, failed: bool, failedFull: bool)
    requires NoticesHold(l) && Announces(f, l, e, m) && Explained(l.notices, filled, failed, failedFull)
    ensures Explained(m.notices,
      filled || FillsFirst(f, l, e), failed || FailsFirst(f, l, e), failedFull || FailsFull(f, l, e))
  {
  }

  ghost predicate Filled(f: Format, close: (nat, nat, Option<Why>) -> string, maxBytes: nat, events: seq<Event>, n: nat)
    requires n <= |events|
  {
    exists k :: 0 <= k < n && FillsFirst(f, At(f, close, maxBytes, events, k), events[k])
  }

  ghost predicate FailedWrite(
    f: Format, close: (nat, nat, Option<Why>) -> string, maxBytes: nat, events: seq<Event>, n: nat)
    requires n <= |events|
  {
    exists k :: 0 <= k < n && FailsFirst(f, At(f, close, maxBytes, events, k), events[k])
  }

  ghost predicate FailedWhenFull(
    f: Format, close: (nat, nat, Option<Why>) -> string, maxBytes: nat, events: seq<Event>, n: nat)
    requires n <= |events|
  {
    exists k :: 0 <= k < n && FailsFull(f, At(f, close, maxBytes, events, k), events[k])
  }

  lemma OneMoreMoment(f: Format, close: (nat, nat, Option<Why>) -> string, maxBytes: nat, events: seq<Event>, n: nat)
    requires n < |events|
    ensures var l, e := At(f, close, maxBytes, events, n), events[n];
      && (Filled(f, close, maxBytes, events, n + 1) <==> Filled(f, close, maxBytes, events, n) || FillsFirst(f, l, e))
      && (FailedWrite(f, close, maxBytes, events, n + 1) <==>
        FailedWrite(f, close, maxBytes, events, n) || FailsFirst(f, l, e))
      && (FailedWhenFull(f, close, maxBytes, events, n + 1) <==>
        FailedWhenFull(f, close, maxBytes, events, n) || FailsFull(f, l, e))
  {
  }

  lemma ExplainedStep(f: Format, close: (nat, nat, Option<Why>) -> string, maxBytes: nat, events: seq<Event>, n: nat)
    requires n < |events|
    requires Explained(At(f, close, maxBytes, events, n).notices,
      Filled(f, close, maxBytes, events, n),
      FailedWrite(f, close, maxBytes, events, n),
      FailedWhenFull(f, close, maxBytes, events, n))
    ensures Explained(At(f, close, maxBytes, events, n + 1).notices,
      Filled(f, close, maxBytes, events, n + 1),
      FailedWrite(f, close, maxBytes, events, n + 1),
      FailedWhenFull(f, close, maxBytes, events, n + 1))
  {
    var l := At(f, close, maxBytes, events, n);
    AtAnnounces(f, close, maxBytes, events, n);
    StepExplained(f, l, events[n], At(f, close, maxBytes, events, n + 1),
      Filled(f, close, maxBytes, events, n),
      FailedWrite(f, close, maxBytes, events, n),
      FailedWhenFull(f, close, maxBytes, events, n));
    OneMoreMoment(f, close, maxBytes, events, n);
  }

  /** In any run: `full` is announced exactly when an append filled an open ledger, and `write_failed`
    * exactly when a record's write or sync was the first to fail; both are, in that order, exactly when
    * the ledger was full by then. */
  lemma {:induction false} NoticesAreExact(
    f: Format, close: (nat, nat, Option<Why>) -> string, maxBytes: nat, events: seq<Event>, n: nat)
    requires n <= |events|
    ensures Explained(At(f, close, maxBytes, events, n).notices,
      Filled(f, close, maxBytes, events, n),
      FailedWrite(f, close, maxBytes, events, n),
      FailedWhenFull(f, close, maxBytes, events, n))
  {
    if n > 0 {
      NoticesAreExact(f, close, maxBytes, events, n - 1);
      ExplainedStep(f, close, maxBytes, events, n - 1);
    } else {
      assert events[..0] == [];
    }
  }

  predicate FillsFirst(f: Format, l: Ledger, e: Event) { l.unavailable.None? && FillsUp(f, l, e) }

  predicate FailsFirst(f: Format, l: Ledger, e: Event) {
    l.unavailable != Some(WriteFailed) && FailsRecord(f, l, e)
  }

  predicate FailsFull(f: Format, l: Ledger, e: Event) { l.unavailable == Some(Full) && FailsRecord(f, l, e) }

  /** Two notices do happen: a record that fills the ledger, and whose write fails. */
  lemma SecondNoticeHappens(f: Format, close: (nat, nat, Option<Why>) -> string, at: string, kind: string, data: string)
    ensures var maxBytes := |LineOf(f, RecordOf(f, 0, at, kind, data, GENESIS))|;
      Run(f, close, Created(maxBytes), [AppendCalled(at, kind, data), TaskStarts, WriteDone(0, true)]).notices
        == [Full, WriteFailed]
  {
    var maxBytes := |LineOf(f, RecordOf(f, 0, at, kind, data, GENESIS))|;
    var a := AppendCalled(at, kind, data);
    var l0 := Created(maxBytes);
    var l1 := Next(f, close, l0, a);
    NextNotices(f, close, l0, a);
    assert l1.accepted == [RecordOf(f, 0, at, kind, data, GENESIS)];
    var l2 := Next(f, close, l1, TaskStarts);
    NextNotices(f, close, l2, WriteDone(0, true));
    RunOfThree(f, close, l0, a, TaskStarts, WriteDone(0, true));
  }

  lemma RunOfThree(
    f: Format, close: (nat, nat, Option<Why>) -> string, l: Ledger, a: Event, b: Event, c: Event)
    ensures Run(f, close, l, [a, b, c]) == Next(f, close, Next(f, close, Next(f, close, l, a), b), c)
  {
    assert [a, b, c][1..] == [b, c] && [b, c][1..] == [c] && [c][1..] == [];
    var m := Next(f, close, Next(f, close, l, a), b);
    assert Run(f, close, m, [c]) == Run(f, close, Next(f, close, m, c), []);
  }

  /** A close that fails leaves the ledger write-failed with no notice, and none ever follows. */
  lemma {:induction false} FailedCloseIsSilent(
    f: Format, close: (nat, nat, Option<Why>) -> string, l: Ledger, e: Event, events: seq<Event>)
    requires Inv(f, close, l) && FailsClosing(f, l, e)
    ensures var m := Run(f, close, Next(f, close, l, e), events);
      m.notices == l.notices && m.unavailable == Some(WriteFailed)
  {
    NextNotices(f, close, l, e);
    NothingAfterFailure(f, close, Next(f, close, l, e), events);
  }

  lemma {:induction false} NothingAfterFailure(
    f: Format, close: (nat, nat, Option<Why>) -> string, l: Ledger, events: seq<Event>)
    requires l.unavailable == Some(WriteFailed)
    ensures var m := Run(f, close, l, events); m.notices == l.notices && m.unavailable == Some(WriteFailed)
    decreases |events|
  {
    if events != [] {
      NextNotices(f, close, l, events[0]);
      NothingAfterFailure(f, close, Next(f, close, l, events[0]), events[1..]);
    }
  }

  /** The moment of the close: nothing but the first call of `close` closes, and it stands. */
  ghost predicate ClosesAt(
    f: Format, close: (nat, nat, Option<Why>) -> string, maxBytes: nat, events: seq<Event>, k: nat, l: Ledger)
    requires k < |events|
  {
    var m := At(f, close, maxBytes, events, k);
    && events[k].CloseCalled? && !m.closed && l.closed
    && l.accepted == m.accepted && l.dropped == m.dropped && l.appends == m.appends
    && l.closing == Some(RecordOf(f, |m.accepted|, events[k].at, CLOSED, ClosingData(close, m), m.prev))
  }

  lemma OnlyCloseCloses(f: Format, close: (nat, nat, Option<Why>) -> string, l: Ledger, e: Event)
    requires !l.closed && Next(f, close, l, e).closed
    ensures e.CloseCalled? && Next(f, close, l, e) == Close(f, l, e.at, close)
  {
  }

  lemma ClosedTakesNoAppend(f: Format, close: (nat, nat, Option<Why>) -> string, l: Ledger, e: Event)
    requires l.closed
    ensures Next(f, close, l, e).appends == l.appends
  {
  }

  lemma OpenAtFirst(f: Format, close: (nat, nat, Option<Why>) -> string, maxBytes: nat, events: seq<Event>)
    ensures !At(f, close, maxBytes, events, 0).closed
  {
    assert events[..0] == [];
  }

  lemma {:induction false} ClosedAt(
    f: Format, close: (nat, nat, Option<Why>) -> string, maxBytes: nat, events: seq<Event>, n: nat) returns (k: nat)
    requires n <= |events| && At(f, close, maxBytes, events, n).closed
    ensures k < n && ClosesAt(f, close, maxBytes, events, k, At(f, close, maxBytes, events, n))
  {
    OpenAtFirst(f, close, maxBytes, events);
    if n > 0 {
      var l := At(f, close, maxBytes, events, n - 1);
      AtNext(f, close, maxBytes, events, n - 1);
      if l.closed {
        k := ClosedAt(f, close, maxBytes, events, n - 1);
        AtFollows(f, close, maxBytes, events, n - 1);
        ClosedTakesNoAppend(f, close, l, events[n - 1]);
      } else {
        OnlyCloseCloses(f, close, l, events[n - 1]);
        k := n - 1;
      }
    }
  }

  /** When the closing record is wholly on file, the file holds exactly the records it counts before it, and
    * records and dropped together are all appends made before the close; the state it reports is the
    * ledger's when `close` was called. */
  lemma ClosingRecordCountsAll(f: Format, close: (nat, nat, Option<Why>) -> string, maxBytes: nat, events: seq<Event>)
    returns (k: nat)
    requires Run(f, close, Created(maxBytes), events).closing.Some?
    requires var l := Run(f, close, Created(maxBytes), events); l.file == Text(f, Tasks(l))
    ensures var l := Run(f, close, Created(maxBytes), events);
            && k < |events| && ClosesAt(f, close, maxBytes, events, k, l)
            && l.file == Text(f, l.accepted + [l.closing.value])
            && l.closing.value.body.seqNo == |l.accepted|
            && l.closing.value.body.data
               == close(|l.accepted|, l.dropped, At(f, close, maxBytes, events, k).unavailable)
            && |l.accepted| + l.dropped == l.appends
  {
    var l := Run(f, close, Created(maxBytes), events);
    CreatedHolds(f, close, maxBytes);
    RunKeepsInv(f, close, Created(maxBytes), events);
    assert events[..|events|] == events;
    k := ClosedAt(f, close, maxBytes, events, |events|);
  }

  // --- Does a closed ledger verify? --------------------------------------------------------------------

  function OpeningRecord(f: Format, at: string, data: string): Record {
    RecordOf(f, 0, at, OPENED, data, GENESIS)
  }

  /** The ledger as `open` leaves it before any write settles. */
  function Opened(f: Format, maxBytes: nat, at: string, data: string): Ledger {
    Append(f, Created(maxBytes), at, OPENED, data)
  }

  /** An append that uses neither of the two reserved record types. */
  predicate Plain(e: Event) {
    (e.AppendCalled? || e.CriticalCalled? ==> e.kind != OPENED && e.kind != CLOSED)
  }

  predicate PlainFrom(records: seq<Record>, n: nat) {
    forall i :: n <= i < |records| ==> records[i].body.kind != OPENED && records[i].body.kind != CLOSED
  }

  lemma {:induction false} RunKeepsKinds(
    f: Format, close: (nat, nat, Option<Why>) -> string, l: Ledger, events: seq<Event>, n: nat)
    requires Inv(f, close, l) && PlainFrom(l.accepted, n)
    requires forall i :: 0 <= i < |events| ==> Plain(events[i])
    ensures PlainFrom(Run(f, close, l, events).accepted, n)
    decreases |events|
  {
    if events != [] {
      var e := events[0];
      assert Plain(e);
      NextKeepsInv(f, close, l, e);
      NextKeepsKinds(f, close, l, e, n);
      RunKeepsKinds(f, close, Next(f, close, l, e), events[1..], n);
    }
  }

  lemma NextKeepsKinds(f: Format, close: (nat, nat, Option<Why>) -> string, l: Ledger, e: Event, n: nat)
    requires PlainFrom(l.accepted, n) && Plain(e)
    ensures PlainFrom(Next(f, close, l, e).accepted, n)
  {
  }

  /** The records of a text are determined by it. */
  lemma VerifiedRecordsAreUnique(f: Format, records: seq<Record>, other: seq<Record>)
    requires Faithful(f) && Verified(f, Lines(Text(f, records)), other)
    ensures other == records
  {
    LinesOfText(f, records);
    if records != [] { EncodedAt(f, records, 0); }
    forall i | 0 <= i < |records|
      ensures i < |other| && other[i] == records[i]
    {
      EncodedAt(f, records, i);
      assert f.parse(f.encode(records[i])) == Whole(records[i]);
      assert f.parse(f.encode(other[i])) == Whole(other[i]);
    }
  }

  ghost predicate TextVerifies(f: Format, text: string) {
    exists records: seq<Record> :: records != [] && Verified(f, Lines(text), records)
  }

  lemma WholeFileVerifiesIff(f: Format, close: (nat, nat, Option<Why>) -> string, l: Ledger)
    requires Faithful(f) && Inv(f, close, l)
    requires l.closing.Some? && l.file == Text(f, Tasks(l)) && PlainFrom(l.accepted, 1)
    ensures TextVerifies(f, l.file) <==> Tasks(l)[0].body.kind == OPENED
  {
    var all := Tasks(l);
    if all[0].body.kind == OPENED {
      assert WellFormedLedger(f, all);
      LedgerTextVerifies(f, all);
    } else if records: seq<Record> :| records != [] && Verified(f, Lines(l.file), records) {
      VerifiedRecordsAreUnique(f, all, records);
    }
  }

  /** The opening record is accepted exactly when its line fits the bound. */
  lemma OpeningIsTaken(f: Format, close: (nat, nat, Option<Why>) -> string, maxBytes: nat, at: string, data: string)
    ensures var l := Opened(f, maxBytes, at, data);
            && Inv(f, close, l)
            && l.accepted == if |LineOf(f, OpeningRecord(f, at, data))| <= maxBytes then [OpeningRecord(f, at, data)] else []
  {
    CreatedHolds(f, close, maxBytes);
    AppendKeepsInv(f, close, Created(maxBytes), at, OPENED, data);
  }

  /** A cleanly closed ledger verifies offline exactly when its opening record fitted: `open` returns
    * normally even when the bound is too small for it, and such a ledger can never verify. */
  lemma ClosedLedgerVerifiesIffOpeningFits(
      f: Format, close: (nat, nat, Option<Why>) -> string, maxBytes: nat, at: string, data: string, events: seq<Event>)
    requires Faithful(f)
    requires forall i :: 0 <= i < |events| ==> Plain(events[i])
    requires var l := Run(f, close, Opened(f, maxBytes, at, data), events);
             l.closing.Some? && l.file == Text(f, Tasks(l))
    ensures TextVerifies(f, Run(f, close, Opened(f, maxBytes, at, data), events).file)
            <==> |LineOf(f, OpeningRecord(f, at, data))| <= maxBytes
  {
    var start := Opened(f, maxBytes, at, data);
    OpeningIsTaken(f, close, maxBytes, at, data);
    RunKeepsInv(f, close, start, events);
    RunKeepsKinds(f, close, start, events, |start.accepted|);
    WholeFileVerifiesIff(f, close, Run(f, close, start, events));
  }

  /** A close with nothing accepted before it, written and synced without a failure. */
  lemma CloseOfNothing(f: Format, close: (nat, nat, Option<Why>) -> string, l: Ledger, later: string)
    returns (events: seq<Event>)
    requires Inv(f, close, l) && l.accepted == [] && !l.closed && l.file == "" && l.done == 0 && l.head.Idle?
    requires l.unavailable == Some(Full)
    ensures forall i :: 0 <= i < |events| ==> Plain(events[i])
    ensures var m := Run(f, close, l, events);
      && m.closing.Some? && m.head.Idle? && m.unavailable == Some(Full)
      && m.file == Text(f, Tasks(m)) && m.durable == |m.file|
  {
    var l1 := Next(f, close, l, CloseCalled(later));
    var line := LineOf(f, l1.closing.value);
    assert Tasks(l1) == [l1.closing.value];
    var l2 := Next(f, close, l1, TaskStarts);
    var w := WriteDone(|line|, false);
    var l3 := Next(f, close, l2, w);
    assert line[..|line|] == line;
    assert l3.file == line && l3.head.Syncing?;
    var l4 := Next(f, close, l3, ClosingSyncDone(true));
    events := [CloseCalled(later), TaskStarts, w] + [ClosingSyncDone(true)];
    RunOfThree(f, close, l, CloseCalled(later), TaskStarts, w);
    RunSplits(f, close, l, [CloseCalled(later), TaskStarts, w], [ClosingSyncDone(true)]);
    RunOfOne(f, close, l3, ClosingSyncDone(true));
    TextOfOne(f, l1.closing.value);
  }

  lemma RunOfOne(f: Format, close: (nat, nat, Option<Why>) -> string, l: Ledger, e: Event)
    ensures Run(f, close, l, [e]) == Next(f, close, l, e)
  {
    assert [e][1..] == [];
    assert Run(f, close, Next(f, close, l, e), []) == Next(f, close, l, e);
  }

  lemma TextOfOne(f: Format, r: Record)
    ensures Text(f, [r]) == LineOf(f, r)
  {
    LineExtendsFile(f, [r], 0, 0);
    assert [r][..1] == [r] && [r][..0] == [];
  }

  /** An opening record over the bound is dropped while `open` succeeds; closed at once, such a ledger is
    * wholly written and synced, and the verifier rejects it. */
  lemma OversizedOpeningIsRejected(
    f: Format, close: (nat, nat, Option<Why>) -> string, maxBytes: nat, at: string, data: string, later: string)
    returns (events: seq<Event>)
    requires Faithful(f) && |LineOf(f, OpeningRecord(f, at, data))| > maxBytes
    ensures forall i :: 0 <= i < |events| ==> Plain(events[i])
    ensures var l := Run(f, close, Opened(f, maxBytes, at, data), events);
      && l.closing.Some? && l.head.Idle? && l.unavailable == Some(Full)
      && l.file == Text(f, Tasks(l)) && l.durable == |l.file|
      && !TextVerifies(f, l.file)
  {
    OpeningIsTaken(f, close, maxBytes, at, data);
    events := CloseOfNothing(f, close, Opened(f, maxBytes, at, data), later);
    ClosedLedgerVerifiesIffOpeningFits(f, close, maxBytes, at, data, events);
  }
}
