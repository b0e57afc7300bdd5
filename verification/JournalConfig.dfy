/** Journal namespaces: descriptors, the history an operator records, and opening them all
  * (journal-config.ts, with the wiring of server.ts).
  */
module JournalConfig {
  import opened Options
  import opened IsoDates
  import JS = JournalSearch

  const RETAIN_MS := 30 * DAY_MS
  const FINALIZATION_MS := 60_000
  const MAX_HISTORY := 16
  const MAX_RECORDS := 1_000_000
  const MAX_SAFE_INTEGER := 9_007_199_254_740_991

  type Key = seq<bv8>

  datatype Bounds = Bounds(maxRecordBytes: int, maxNamespaces: int, maxInFlight: int, timeoutMs: int)

  const SERVICE_BOUNDS := Bounds(16_384, 64, 8, 5_000)

  datatype Namespace = Namespace(
    schemaVersion: int,
    namespaceId: string,
    fingerprintVersion: int,
    fingerprintKeyId: string,
    restoreGeneration: string,
    acceptUntil: int,
    retainUntil: int,
    maxFinalizationMs: int,
    bounds: Bounds,
    maxRecords: int)

  datatype Config = Config(
    namespaceId: string, acceptUntil: int, maxRecords: int, restoreGeneration: string, keyId: string, key: Key)

  datatype Entry = Entry(
    namespaceId: string,
    acceptUntil: int,
    retainMs: int,
    finalizationMs: int,
    restoreGeneration: string,
    maxRecords: int,
    bounds: Bounds,
    keyId: string,
    key: Key)

  // --- Descriptors -------------------------------------------------------------------------------------

  function ServiceNamespace(c: Config): Namespace {
    Namespace(1, c.namespaceId, 1, c.keyId, c.restoreGeneration, c.acceptUntil, c.acceptUntil + RETAIN_MS,
      FINALIZATION_MS, SERVICE_BOUNDS, c.maxRecords)
  }

  function HistoryNamespace(e: Entry): Namespace {
    Namespace(1, e.namespaceId, 1, e.keyId, e.restoreGeneration, e.acceptUntil, e.acceptUntil + e.retainMs,
      e.finalizationMs, e.bounds, e.maxRecords)
  }

  // --- The history file -----------------------------------------------------------------------------------

  /** A JSON value where a string or a number is expected; `Other` is anything else, fractions included. */
  datatype Value = Text(text: string) | Number(n: int) | Other

  datatype RawBounds =
    | RawBounds(maxRecordBytes: Value, maxNamespaces: Value, maxInFlight: Value, timeoutMs: Value)
    | NotBounds

  /** `NotEntry` is a value that is not an object with exactly these keys. */
  datatype RawEntry =
    | RawEntry(
        name: Value, acceptUntil: Value, restoreGeneration: Value, maxRecords: Value,
        retainMs: Value, finalizationMs: Value, bounds: RawBounds, keyFile: Value)
    | NotEntry

  datatype KeyFile = KeyFile(keyId: string, key: Key)

  /** Dates, paths and key files, as the platform reads them. */
  datatype Platform = Platform(
    parseDate: string -> Option<int>,
    isAbsolute: string -> bool,
    readKeyFile: string -> Option<KeyFile>)

  datatype Result<+T> = Ok(value: T) | Err(why: string)

  predicate IdentifierChar(c: char) {
    'A' <= c <= 'Z' || 'a' <= c <= 'z' || '0' <= c <= '9' || c == '_' || c == '-'
  }

  predicate Identifier(s: string) {
    1 <= |s| <= 128 && forall i :: 0 <= i < |s| ==> IdentifierChar(s[i])
  }

  predicate Positive(v: Value, max: int) { v.Number? && 1 <= v.n <= max }

  predicate BoundsFit(b: RawBounds) {
    && b.RawBounds?
    && Positive(b.maxRecordBytes, MAX_SAFE_INTEGER)
    && Positive(b.maxNamespaces, MAX_SAFE_INTEGER)
    && Positive(b.maxInFlight, MAX_SAFE_INTEGER)
    && Positive(b.timeoutMs, MAX_SAFE_INTEGER)
  }

  /** A configured instant, of the current namespace or of an entry: the pattern first, then the date. */
  function Instant(p: Platform, v: Value): Option<int> {
    if v.Text? && IsoShape(v.text) && p.parseDate(v.text).Some? && 1 <= p.parseDate(v.text).value <= MAX_SAFE_INTEGER
    then p.parseDate(v.text) else None
  }

  /** One entry, its checks in order. */
  function ParseEntry(p: Platform, raw: RawEntry, seen: set<string>): Result<Entry> {
    if raw.NotEntry? then Err("keys")
    else if !raw.name.Text? || !Identifier(raw.name.text) then Err("namespace")
    else if raw.name.text in seen then Err("listed twice")
    else if Instant(p, raw.acceptUntil).None? then Err("acceptUntil")
    else if !raw.restoreGeneration.Text? || !Identifier(raw.restoreGeneration.text) then Err("restoreGeneration")
    else if !Positive(raw.maxRecords, MAX_RECORDS) then Err("maxRecords")
    else if !Positive(raw.retainMs, MAX_SAFE_INTEGER) then Err("retainMs")
    else if !Positive(raw.finalizationMs, MAX_SAFE_INTEGER) then Err("finalizationMs")
    else if !BoundsFit(raw.bounds) then Err("bounds")
    else if !raw.keyFile.Text? || !p.isAbsolute(raw.keyFile.text) then Err("keyFile")
    else
      var file := p.readKeyFile(raw.keyFile.text);
      if file.None? then Err("key file")
      else
        var b := raw.bounds;
        Ok(Entry(raw.name.text, Instant(p, raw.acceptUntil).value, raw.retainMs.n, raw.finalizationMs.n,
          raw.restoreGeneration.text, raw.maxRecords.n,
          Bounds(b.maxRecordBytes.n, b.maxNamespaces.n, b.maxInFlight.n, b.timeoutMs.n),
          file.value.keyId, file.value.key))
  }

  function NamesOf(list: seq<RawEntry>): set<string> {
    set raw | raw in list && raw.RawEntry? && raw.name.Text? :: raw.name.text
  }

  /** The entry at `k`, read after those before it. */
  function ParseAt(p: Platform, list: seq<RawEntry>, current: Option<string>, k: nat): Result<Entry>
    requires k < |list|
  {
    ParseEntry(p, list[k], (if current.Some? then {current.value} else {}) + NamesOf(list[..k]))
  }

  /** Everything read, each entry after those before it. */
  ghost predicate ParsedAs(p: Platform, list: seq<RawEntry>, current: Option<string>, entries: seq<Entry>) {
    |entries| <= |list| && forall k :: 0 <= k < |entries| ==> ParseAt(p, list, current, k) == Ok(entries[k])
  }

  /** Names read are distinct, and none is the current one. */
  lemma NamesAreDistinct(p: Platform, list: seq<RawEntry>, current: Option<string>, entries: seq<Entry>, j: nat, k: nat)
    requires ParsedAs(p, list, current, entries) && j < k < |entries|
    ensures entries[j].namespaceId != entries[k].namespaceId
    ensures current != Some(entries[k].namespaceId) && current != Some(entries[j].namespaceId)
  {
    assert ParseAt(p, list, current, j) == Ok(entries[j]) && ParseAt(p, list, current, k) == Ok(entries[k]);
    assert list[..k][j] == list[j];
    assert list[j] in list[..k];
  }

  /** The loop over the file: entry after entry, each name seen once, the first refusal refusing all. */
  method ParseHistory(p: Platform, list: seq<RawEntry>, current: Option<string>) returns (r: Result<seq<Entry>>)
    ensures r.Ok? <==>
      |list| <= MAX_HISTORY && forall k :: 0 <= k < |list| ==> ParseAt(p, list, current, k).Ok?
    ensures r.Ok? ==> |r.value| == |list| && ParsedAs(p, list, current, r.value)
  {
    if |list| > MAX_HISTORY { return Err("too many"); }
    var entries: seq<Entry> := [];
    var seen: set<string> := if current.Some? then {current.value} else {};
    var k := 0;
    while k < |list|
      invariant 0 <= k <= |list| && |entries| == k
      invariant seen == (if current.Some? then {current.value} else {}) + NamesOf(list[..k])
      invariant ParsedAs(p, list, current, entries)
    {
      var entry := ParseEntry(p, list[k], seen);
      assert entry == ParseAt(p, list, current, k);
      if entry.Err? { return Err(entry.why); }
      ReadNameIsNew(p, list[k], seen);
      OneMoreName(list, k);
      seen := seen + {entry.value.namespaceId};
      entries := entries + [entry.value];
      k := k + 1;
    }
    r := Ok(entries);
  }

  lemma ReadNameIsNew(p: Platform, raw: RawEntry, seen: set<string>)
    requires ParseEntry(p, raw, seen).Ok?
    ensures raw.RawEntry? && raw.name == Text(ParseEntry(p, raw, seen).value.namespaceId)
  {
  }

  lemma OneMoreName(list: seq<RawEntry>, k: nat)
    requires k < |list| && list[k].RawEntry? && list[k].name.Text?
    ensures NamesOf(list[..k + 1]) == NamesOf(list[..k]) + {list[k].name.text}
  {
    assert list[..k + 1] == list[..k] + [list[k]];
  }

  // --- The recorded entry reopens the namespace -----------------------------------------------------------

  /** What an operator records for the current namespace, with the key file they name. */
  function HistoryTemplate(c: Config, keyFile: string): RawEntry
    requires 0 <= c.acceptUntil
  {
    RawEntry(Text(c.namespaceId), Text(ToIso(c.acceptUntil)), Text(c.restoreGeneration),
      Number(c.maxRecords), Number(RETAIN_MS), Number(FINALIZATION_MS),
      RawBounds(Number(SERVICE_BOUNDS.maxRecordBytes), Number(SERVICE_BOUNDS.maxNamespaces),
        Number(SERVICE_BOUNDS.maxInFlight), Number(SERVICE_BOUNDS.timeoutMs)),
      Text(keyFile))
  }

  /** What reading the environment has checked about the current configuration. */
  predicate ValidConfig(c: Config) {
    && Identifier(c.namespaceId) && Identifier(c.restoreGeneration)
    && 1 <= c.acceptUntil <= MAX_INSTANT
    && 1 <= c.maxRecords <= MAX_RECORDS
  }

  /** Reading a date that was written gives the date: ECMA-262, section 21.4.3.2. */
  ghost predicate ReadsWhatIsWritten(p: Platform) {
    forall t: nat | t <= MAX_INSTANT :: p.parseDate(ToIso(t)) == Some(t)
  }

  /** A time so many minutes west of the reference is that much later: ECMA-262, section 21.4.1.32. */
  ghost predicate ReadsZones(p: Platform) {
    forall t: nat, m: nat | t < FIVE_DIGIT_YEARS && t % 1000 == 0 && m < 60 ::
      p.parseDate(ToSecond(t) + MinutesWest(m)) == Some(t + m * 60_000)
  }

  /** A written instant is accepted back exactly before year 10000. */
  lemma WrittenInstantIsRead(p: Platform, t: nat)
    requires ReadsWhatIsWritten(p) && 1 <= t <= MAX_INSTANT
    ensures Instant(p, Text(ToIso(t))) == if t < FIVE_DIGIT_YEARS then Some(t) else None
  {
    WrittenMatchesExactly(t);
    assert p.parseDate(ToIso(t)) == Some(t);
  }

  /** What reading the recorded entry back comes to, given how its instant reads. */
  lemma TemplateIsRead(p: Platform, c: Config, keyFile: string, seen: set<string>)
    requires ValidConfig(c) && c.namespaceId !in seen
    requires p.isAbsolute(keyFile) && p.readKeyFile(keyFile) == Some(KeyFile(c.keyId, c.key))
    ensures var e := ParseEntry(p, HistoryTemplate(c, keyFile), seen);
      var instant := Instant(p, Text(ToIso(c.acceptUntil)));
      && (instant.None? ==> e == Err("acceptUntil"))
      && (instant.Some? ==>
        && e.Ok? && e.value.key == c.key
        && HistoryNamespace(e.value) == ServiceNamespace(c.(acceptUntil := instant.value)))
  {
    TemplateFits(c, keyFile);
  }

  lemma TemplateFits(c: Config, keyFile: string)
    requires ValidConfig(c)
    ensures var raw := HistoryTemplate(c, keyFile);
      && BoundsFit(raw.bounds) && Positive(raw.maxRecords, MAX_RECORDS)
      && Positive(raw.retainMs, MAX_SAFE_INTEGER) && Positive(raw.finalizationMs, MAX_SAFE_INTEGER)
  {
  }

  /** Recorded, read back with its key file and opened, a namespace has exactly the descriptor and key it
    * had when current, if and only if it stops accepting before year 10000; from then on the entry, whose
    * year is written with a sign, is refused. */
  lemma TemplateReopensTheNamespace(p: Platform, c: Config, keyFile: string, seen: set<string>)
    requires ReadsWhatIsWritten(p) && ValidConfig(c) && c.namespaceId !in seen
    requires p.isAbsolute(keyFile) && p.readKeyFile(keyFile) == Some(KeyFile(c.keyId, c.key))
    ensures var e := ParseEntry(p, HistoryTemplate(c, keyFile), seen);
      && (e.Ok? && HistoryNamespace(e.value) == ServiceNamespace(c) && e.value.key == c.key
        <==> c.acceptUntil < FIVE_DIGIT_YEARS)
      && (c.acceptUntil >= FIVE_DIGIT_YEARS ==> e == Err("acceptUntil"))
  {
    WrittenInstantIsRead(p, c.acceptUntil);
    TemplateIsRead(p, c, keyFile, seen);
  }

  /** A zone takes a configured instant past the bound: a time of year 9999, so many minutes west. */
  predicate PastTheBound(t: nat, m: nat) {
    t < FIVE_DIGIT_YEARS && t % 1000 == 0 && m < 60 && t + m * 60_000 >= FIVE_DIGIT_YEARS
  }

  lemma FarHorizonIsRead(p: Platform, t: nat, m: nat)
    requires ReadsZones(p) && PastTheBound(t, m)
    ensures Instant(p, Text(ToSecond(t) + MinutesWest(m))) == Some(t + m * 60_000)
  {
    MinutesWestIsZone(m);
    ZonedTextMatches(t, MinutesWest(m));
    assert p.parseDate(ToSecond(t) + MinutesWest(m)) == Some(t + m * 60_000);
  }

  lemma OneMinuteWest(p: Platform, t: nat, day: string, time: string, zone: string)
    requires ReadsZones(p) && IsLastSecond(t)
    requires day == "9999-12-31" && time == "T23:59:59" && zone == "-00:01"
    ensures Instant(p, Text(day + time + zone)) == Some(t + 60_000) && t + 60_000 >= FIVE_DIGIT_YEARS
  {
    LastSecondIsLast(t);
    LastSecondText(t);
    OneMinuteWestText();
    FarHorizonIsRead(p, t, 1);
  }

  /** The last second of year 9999 one minute west is a horizon past the bound, and is read as one. */
  lemma OneMinuteWestIsRead(p: Platform, day: string, time: string, zone: string)
    requires ReadsZones(p) && day == "9999-12-31" && time == "T23:59:59" && zone == "-00:01"
    ensures Instant(p, Text(day + time + zone)) == Some(LAST_SECOND + 60_000)
    ensures LAST_SECOND + 60_000 >= FIVE_DIGIT_YEARS
  {
    LastSecondParts();
    OneMinuteWest(p, LAST_SECOND, day, time, zone);
  }

  /** A horizon past the bound can be configured, and its namespace does not reopen from its recorded entry. */
  lemma FarHorizonIsNotReopened(p: Platform, c: Config, keyFile: string, seen: set<string>, far: string, t: nat, m: nat)
    requires ReadsWhatIsWritten(p) && ReadsZones(p) && PastTheBound(t, m) && far == ToSecond(t) + MinutesWest(m)
    requires Instant(p, Text(far)) == Some(c.acceptUntil)
    requires ValidConfig(c) && c.namespaceId !in seen
    requires p.isAbsolute(keyFile) && p.readKeyFile(keyFile) == Some(KeyFile(c.keyId, c.key))
    ensures ParseEntry(p, HistoryTemplate(c, keyFile), seen) == Err("acceptUntil")
  {
    FarHorizonIsRead(p, t, m);
    FarEntryIsRefused(p, c, keyFile, seen);
  }

  lemma FarEntryIsRefused(p: Platform, c: Config, keyFile: string, seen: set<string>)
    requires ReadsWhatIsWritten(p) && ValidConfig(c) && c.namespaceId !in seen
    requires p.isAbsolute(keyFile) && p.readKeyFile(keyFile) == Some(KeyFile(c.keyId, c.key))
    requires c.acceptUntil >= FIVE_DIGIT_YEARS
    ensures ParseEntry(p, HistoryTemplate(c, keyFile), seen) == Err("acceptUntil")
  {
    TemplateReopensTheNamespace(p, c, keyFile, seen);
  }

  // --- Opening every namespace -------------------------------------------------------------------------------

  datatype OpenOutcome = Opens | NotOpened(reason: string) | Uncertain(reason: string) | Throws

  /** The store as this start meets it: whether it starts, its answer to the n-th open, and the clock. */
  datatype Store = Store(starts: bool, answer: (nat, Namespace, Key) -> OpenOutcome, clock: nat -> int)

  /** A handle: the open call that returned it, and the descriptor and key it was opened with. */
  datatype Handle = Handle(call: nat, namespace: Namespace, key: Key)

  /** A handle as it is given out: as it is, or behind the recover-only wrapper. */
  datatype Journal = Journal(handle: Handle, recoverOnly: bool)

  datatype Refusal = Accepted | StoreDidNotStart | Errored | Because(uncertain: bool, reason: string) | NotYetPast

  datatype State = State(
    namespaceId: string, current: bool, acceptUntil: int, retainUntil: int, journal: Option<Journal>, refusal: Refusal)

  datatype OpenResult =
    | StoreFailed
    | CurrentRefused(why: Refusal)
    | OpenedSet(journal: Option<Journal>, history: seq<State>)

  function StateOf(n: Namespace, current: bool, journal: Option<Journal>, refusal: Refusal): State {
    State(n.namespaceId, current, n.acceptUntil, n.retainUntil, journal, refusal)
  }

  function Why(o: OpenOutcome): Refusal {
    match o
    case Opens => Accepted
    case NotOpened(reason) => Because(false, reason)
    case Uncertain(reason) => Because(true, reason)
    case Throws => Errored
  }

  /** The state of a namespace the store was asked for. */
  function AskedState(store: Store, n: Namespace, key: Key, current: bool, recoverOnly: bool, call: nat): State {
    var answer := store.answer(call, n, key);
    StateOf(n, current, if answer.Opens? then Some(Journal(Handle(call, n, key), recoverOnly)) else None, Why(answer))
  }

  predicate PastHorizon(store: Store, e: Entry, k: nat) { HistoryNamespace(e).acceptUntil <= store.clock(k + 1) }

  /** How many opens the first `n` entries make: only those past their horizon are asked for. */
  function Asked(store: Store, history: seq<Entry>, n: nat): nat
    requires n <= |history|
  {
    if n == 0 then 0
    else Asked(store, history, n - 1) + (if PastHorizon(store, history[n - 1], n - 1) then 1 else 0)
  }

  function HistoryState(store: Store, history: seq<Entry>, k: nat): State
    requires k < |history|
  {
    var n := HistoryNamespace(history[k]);
    if !PastHorizon(store, history[k], k) then StateOf(n, false, None, NotYetPast)
    else AskedState(store, n, history[k].key, false, true, 1 + Asked(store, history, k))
  }

  function HistoryStates(store: Store, history: seq<Entry>, n: nat): (r: seq<State>)
    requires n <= |history|
    ensures |r| == n
  {
    if n == 0 then [] else HistoryStates(store, history, n - 1) + [HistoryState(store, history, n - 1)]
  }

  lemma {:induction false} HistoryStateAt(store: Store, history: seq<Entry>, n: nat, k: nat)
    requires k < n <= |history|
    ensures HistoryStates(store, history, n)[k] == HistoryState(store, history, k)
  {
    if k < n - 1 { HistoryStateAt(store, history, n - 1, k); }
  }

  function OpenSet(config: Config, history: seq<Entry>, store: Store): OpenResult {
    var n := ServiceNamespace(config);
    var ahead := config.acceptUntil > store.clock(0);
    if !store.starts then NotStarted(config, history, ahead)
    else
      var own := AskedState(store, n, config.key, true, !ahead, 0);
      var others := HistoryStates(store, history, |history|);
      if ahead && own.journal.None? then CurrentRefused(own.refusal) else SetOf(ahead, own, others)
  }

  lemma OpenSetStarted(config: Config, history: seq<Entry>, store: Store)
    requires store.starts
    ensures var ahead := config.acceptUntil > store.clock(0);
      var own := AskedState(store, ServiceNamespace(config), config.key, true, !ahead, 0);
      OpenSet(config, history, store) ==
        if ahead && own.journal.None? then CurrentRefused(own.refusal)
        else SetOf(ahead, own, HistoryStates(store, history, |history|))
  {
  }

  /** A current namespace past its horizon is searched like history; before it, it takes durable work. */
  function SetOf(ahead: bool, own: State, others: seq<State>): OpenResult {
    if ahead then OpenedSet(own.journal, others) else OpenedSet(None, [own] + others)
  }

  lemma SetHolds(ahead: bool, own: State, others: seq<State>)
    ensures var r := SetOf(ahead, own, others);
      r.OpenedSet? && Searched(r) == (if own.journal.Some? then [own.journal.value.handle] else []) + HandlesOf(others)
  {
    if !ahead {
      HandlesPrepend(own, others);
      assert [] + HandlesOf([own] + others) == HandlesOf([own] + others);
    }
  }

  /** The handles of the states, in order. */
  function HandlesOf(states: seq<State>): seq<Handle> {
    if states == [] then []
    else
      var last := states[|states| - 1];
      HandlesOf(states[..|states| - 1]) + (if last.journal.Some? then [last.journal.value.handle] else [])
  }

  lemma HandlesAppend(states: seq<State>, s: State)
    ensures HandlesOf(states + [s]) == HandlesOf(states) + (if s.journal.Some? then [s.journal.value.handle] else [])
    ensures states == [] ==> HandlesOf([s]) == (if s.journal.Some? then [s.journal.value.handle] else [])
  {
    assert (states + [s])[..|states|] == states;
    assert states == [] ==> states + [s] == [s];
  }

  /** The handle of one state, if it has one. */
  function HandleOf(s: State): seq<Handle> { if s.journal.Some? then [s.journal.value.handle] else [] }

  lemma SplitLast(s: State, states: seq<State>)
    requires states != []
    ensures var n := |states| - 1;
      states == states[..n] + [states[n]] && [s] + states == ([s] + states[..n]) + [states[n]]
  {
  }

  lemma {:induction false} HandlesPrepend(s: State, states: seq<State>)
    ensures HandlesOf([s] + states) == HandleOf(s) + HandlesOf(states)
  {
    if states == [] {
      HandlesAppend([], s);
      assert [s] + states == [s] && HandleOf(s) + [] == HandleOf(s);
    } else {
      var n := |states| - 1;
      var before, last := states[..n], states[n];
      HandlesPrepend(s, before);
      HandlesAppend([s] + before, last);
      HandlesAppend(before, last);
      SplitLast(s, states);
      JoinAgain(HandleOf(s), HandlesOf(before), HandleOf(last));
    }
  }

  lemma JoinAgain(a: seq<Handle>, b: seq<Handle>, c: seq<Handle>)
    ensures a + b + c == a + (b + c)
  {
  }

  /** The ids of the states without a handle, in order. */
  function RefusedIds(states: seq<State>): seq<string> {
    if states == [] then []
    else
      var last := states[|states| - 1];
      RefusedIds(states[..|states| - 1]) + (if last.journal.None? then [last.namespaceId] else [])
  }

  /** Without a store: fatal, unless the namespace is past its horizon and has no history. */
  function NotStarted(config: Config, history: seq<Entry>, ahead: bool): OpenResult {
    if !ahead && history == []
    then OpenedSet(None, [StateOf(ServiceNamespace(config), true, None, StoreDidNotStart)])
    else StoreFailed
  }

  lemma NotStartedHoldsNothing(config: Config, history: seq<Entry>, ahead: bool)
    ensures var r := NotStarted(config, history, ahead); r.OpenedSet? ==> Searched(r) == []
  {
    HandlesAppend([], StateOf(ServiceNamespace(config), true, None, StoreDidNotStart));
  }

  /** Everything a successful start holds open: the current journal, then the history. */
  function Searched(r: OpenResult): seq<Handle>
    requires r.OpenedSet?
  {
    (if r.journal.Some? then [r.journal.value.handle] else []) + HandlesOf(r.history)
  }

  /** The store adapter: what was opened on it, what was closed, and whether it is gone. */
  class Adapter {
    const store: Store
    var calls: nat
    var handles: seq<Handle>
    var closed: seq<Handle>
    var disposed: bool
    var closing: bool

    constructor (store: Store)
      ensures this.store == store && calls == 0 && handles == [] && closed == [] && !disposed && !closing
    {
      this.store := store;
      calls, handles, closed, disposed, closing := 0, [], [], false, false;
    }

    method Open(n: Namespace, key: Key) returns (answer: OpenOutcome, handle: Handle)
      modifies this`calls, this`handles
      ensures calls == old(calls) + 1
      ensures answer == store.answer(old(calls), n, key) && handle == Handle(old(calls), n, key)
      ensures handles == if answer.Opens? then old(handles) + [handle] else old(handles)
    {
      answer := store.answer(calls, n, key);
      handle := Handle(calls, n, key);
      if answer.Opens? { handles := handles + [handle]; }
      calls := calls + 1;
    }

    /** Close once: a second call finds the first one under way. */
    method CloseAll()
      modifies this`closed, this`disposed, this`closing
      ensures closing
      ensures old(closing) ==> closed == old(closed) && disposed == old(disposed)
      ensures !old(closing) ==> closed == old(closed) + handles && disposed
    {
      if closing { return; }
      closing := true;
      var k := 0;
      while k < |handles|
        invariant 0 <= k <= |handles| && closed == old(closed) + handles[..k] && closing
      {
        assert handles[..k + 1] == handles[..k] + [handles[k]];
        closed := closed + [handles[k]];
        k := k + 1;
      }
      assert handles[..|handles|] == handles;
      disposed := true;
    }

    /** Ask the store for one namespace, and state how it went. */
    method Ask(n: Namespace, key: Key, current: bool, recoverOnly: bool) returns (state: State)
      modifies this`calls, this`handles
      ensures calls == old(calls) + 1
      ensures state == AskedState(store, n, key, current, recoverOnly, old(calls))
      ensures handles == old(handles) + (if state.journal.Some? then [state.journal.value.handle] else [])
    {
      var answer, handle := Open(n, key);
      state := StateOf(n, current, if answer.Opens? then Some(Journal(handle, recoverOnly)) else None, Why(answer));
    }

    /** Ask for one history entry once its horizon has passed. */
    method OpenEntry(history: seq<Entry>, k: nat) returns (state: State)
      requires k < |history| && calls == 1 + Asked(store, history, k)
      modifies this`calls, this`handles
      ensures state == HistoryState(store, history, k)
      ensures calls == 1 + Asked(store, history, k + 1)
      ensures handles == old(handles) + (if state.journal.Some? then [state.journal.value.handle] else [])
    {
      var n := HistoryNamespace(history[k]);
      if n.acceptUntil <= store.clock(k + 1) {
        state := Ask(n, history[k].key, false, true);
      } else {
        state := StateOf(n, false, None, NotYetPast);
      }
    }

    /** Ask for every history entry past its horizon; report the others without asking. */
    method OpenHistory(history: seq<Entry>) returns (states: seq<State>)
      requires calls == 1
      modifies this`calls, this`handles
      ensures states == HistoryStates(store, history, |history|)
      ensures calls == 1 + Asked(store, history, |history|)
      ensures handles == old(handles) + HandlesOf(states)
    {
      states := [];
      var k := 0;
      while k < |history|
        invariant 0 <= k <= |history|
        invariant calls == 1 + Asked(store, history, k)
        invariant states == HistoryStates(store, history, k)
        invariant handles == old(handles) + HandlesOf(states)
      {
        var state := OpenEntry(history, k);
        HandlesAppend(states, state);
        states := states + [state];
        k := k + 1;
      }
    }

    /** Open the current namespace and every history entry; a start that fails closes all it opened. */
    method OpenServiceJournalSet(config: Config, history: seq<Entry>) returns (r: OpenResult)
      requires calls == 0 && handles == [] && closed == [] && !disposed && !closing
      modifies this
      ensures r == OpenSet(config, history, store)
      ensures r.OpenedSet? ==> handles == Searched(r) && closed == [] && !disposed && !closing
      ensures r.CurrentRefused? ==> closed == handles && disposed
      ensures r.StoreFailed? ==> calls == 0
      ensures r.OpenedSet? && store.starts ==> calls == 1 + Asked(store, history, |history|)
    {
      var ahead := config.acceptUntil > store.clock(0);
      if store.starts {
        r := OpenOnStore(config, history, ahead);
      } else {
        NotStartedHoldsNothing(config, history, ahead);
        r := NotStarted(config, history, ahead);
      }
    }

    /** The store has started: the current namespace first, then the history. */
    method OpenOnStore(config: Config, history: seq<Entry>, ahead: bool) returns (r: OpenResult)
      requires store.starts && ahead == (config.acceptUntil > store.clock(0))
      requires calls == 0 && handles == [] && closed == [] && !disposed && !closing
      modifies this
      ensures r == OpenSet(config, history, store) && !r.StoreFailed?
      ensures r.OpenedSet? ==> handles == Searched(r) && closed == [] && !disposed && !closing
      ensures r.CurrentRefused? ==> closed == handles && disposed
      ensures r.OpenedSet? ==> calls == 1 + Asked(store, history, |history|)
    {
      OpenSetStarted(config, history, store);
      var current := Ask(ServiceNamespace(config), config.key, true, !ahead);
      if ahead && current.journal.None? {
        CloseAll();
        return CurrentRefused(current.refusal);
      }
      var states := OpenHistory(history);
      SetHolds(ahead, current, states);
      r := SetOf(ahead, current, states);
    }
  }

  // --- Nothing configured is silently left out ----------------------------------------------------------------

  /** Every state is either held open or reported refused. */
  lemma {:induction false} StateIsListed(states: seq<State>, k: nat)
    requires k < |states|
    ensures states[k].journal.Some? ==> states[k].journal.value.handle in HandlesOf(states)
    ensures states[k].journal.None? ==> states[k].namespaceId in RefusedIds(states)
  {
    var n := |states| - 1;
    if k < n { StateIsListed(states[..n], k); }
  }

  /** The state of entry `k` in a set that opened, after the current namespace's own when that is past. */
  lemma HistoryIsListed(config: Config, history: seq<Entry>, store: Store, k: nat)
    requires OpenSet(config, history, store).OpenedSet? && k < |history|
    ensures var r := OpenSet(config, history, store);
      |r.history| >= |history| && r.history[|r.history| - |history| + k] == HistoryState(store, history, k)
  {
    HistoryStateAt(store, history, |history|, k);
  }

  /** A namespace this start has reason to ask for: its own, or that of an entry past its horizon. */
  ghost predicate MayBeAsked(config: Config, history: seq<Entry>, store: Store, n: Namespace) {
    || n == ServiceNamespace(config)
    || exists k :: 0 <= k < |history| && PastHorizon(store, history[k], k) && n == HistoryNamespace(history[k])
  }

  /** Two stores that differ at most in what they would answer for other namespaces. */
  ghost predicate AgreeOnAsked(config: Config, history: seq<Entry>, s: Store, t: Store) {
    && s.starts == t.starts
    && (forall k :: s.clock(k) == t.clock(k))
    && (forall call, n, key | MayBeAsked(config, history, s, n) :: s.answer(call, n, key) == t.answer(call, n, key))
  }

  lemma {:induction false} HistoryAgrees(config: Config, history: seq<Entry>, s: Store, t: Store, n: nat)
    requires AgreeOnAsked(config, history, s, t) && n <= |history|
    ensures Asked(s, history, n) == Asked(t, history, n)
    ensures HistoryStates(s, history, n) == HistoryStates(t, history, n)
  {
    if n > 0 {
      HistoryAgrees(config, history, s, t, n - 1);
      assert PastHorizon(s, history[n - 1], n - 1) ==>
        MayBeAsked(config, history, s, HistoryNamespace(history[n - 1]));
    }
  }

  /** What the store would say of a namespace whose horizon is ahead makes no difference to a start: it is
    * never asked, so a mistyped entry cannot create one. */
  lemma EarlyNamespacesAreNotAsked(config: Config, history: seq<Entry>, s: Store, t: Store)
    requires AgreeOnAsked(config, history, s, t)
    ensures OpenSet(config, history, s) == OpenSet(config, history, t)
  {
    HistoryAgrees(config, history, s, t, |history|);
    assert MayBeAsked(config, history, s, ServiceNamespace(config));
  }

  /** What one handle's namespace answers to a query. */
  ghost predicate ReadAndEmpty<R>(read: Handle -> JS.Journal<R>, h: Handle) {
    JS.Answered(read(h)) && |read(h).matching| == 0
  }

  /** One configured namespace was opened by this start under its own descriptor and key, and the handle
    * it got was read and holds no match. */
  ghost predicate KnownEmpty<R>(store: Store, searched: seq<Handle>, read: Handle -> JS.Journal<R>, n: Namespace, key: Key) {
    exists h | h in searched ::
      h.namespace == n && h.key == key && store.answer(h.call, n, key).Opens? && ReadAndEmpty(read, h)
  }

  function ReadEach<R>(read: Handle -> JS.Journal<R>, handles: seq<Handle>): (r: seq<JS.Journal<R>>)
    ensures |r| == |handles| && forall k :: 0 <= k < |r| ==> r[k] == read(handles[k])
  {
    seq(|handles|, k requires 0 <= k < |handles| => read(handles[k]))
  }

  /** The lookup after this start. */
  function LookupAfterStart<R>(r: OpenResult, read: Handle -> JS.Journal<R>, hasTenant: bool): JS.Lookup<R>
    requires r.OpenedSet?
  {
    JS.LookupOperation(true, ReadEach(read, Searched(r)), RefusedIds(r.history), hasTenant)
  }

  /** `absent` covers the current namespace and every history entry, whatever the store refused at start. */
  lemma AbsentCoversEveryNamespace<R>(
    config: Config, history: seq<Entry>, store: Store, read: Handle -> JS.Journal<R>, hasTenant: bool)
    requires OpenSet(config, history, store).OpenedSet?
    ensures var a := LookupAfterStart(OpenSet(config, history, store), read, hasTenant);
      a.Answer? && a.absent ==>
        var searched := Searched(OpenSet(config, history, store));
        && KnownEmpty(store, searched, read, ServiceNamespace(config), config.key)
        && forall k :: 0 <= k < |history| ==>
          KnownEmpty(store, searched, read, HistoryNamespace(history[k]), history[k].key)
  {
    var r := OpenSet(config, history, store);
    var a := LookupAfterStart(r, read, hasTenant);
    var searched := Searched(r);
    JS.AbsentIsTrue(true, ReadEach(read, searched), RefusedIds(r.history), hasTenant);
    if a.Answer? && a.absent {
      forall h | h in searched ensures ReadAndEmpty(read, h) {
        var i :| 0 <= i < |searched| && searched[i] == h;
        assert ReadEach(read, searched)[i] == read(h);
      }
      OwnNamespaceIsSearched(config, history, store);
      forall k | 0 <= k < |history|
        ensures KnownEmpty(store, searched, read, HistoryNamespace(history[k]), history[k].key)
      {
        EntryIsSearched(config, history, store, k);
      }
    }
  }

  lemma OwnNamespaceIsSearched(config: Config, history: seq<Entry>, store: Store)
    requires var r := OpenSet(config, history, store); r.OpenedSet? && RefusedIds(r.history) == []
    ensures OpenedFor(store, Searched(OpenSet(config, history, store)), ServiceNamespace(config), config.key)
  {
    var r := OpenSet(config, history, store);
    if r.journal.Some? {
      assert r.journal.value.handle in Searched(r);
    } else {
      StateIsListed(r.history, 0);
      assert r.history[0].journal.value.handle in Searched(r);
    }
  }

  /** With nothing refused, every state is held open and searched. */
  lemma StateIsSearched(r: OpenResult, k: nat)
    requires r.OpenedSet? && RefusedIds(r.history) == [] && k < |r.history|
    ensures r.history[k].journal.Some? && r.history[k].journal.value.handle in Searched(r)
  {
    StateIsListed(r.history, k);
  }

  lemma EntryHandle(store: Store, history: seq<Entry>, k: nat)
    requires k < |history| && HistoryState(store, history, k).journal.Some?
    ensures var h := HistoryState(store, history, k).journal.value.handle;
      h.namespace == HistoryNamespace(history[k]) && h.key == history[k].key
      && store.answer(h.call, h.namespace, h.key).Opens?
  {
  }

  /** A handle this start got for a descriptor and key, and still holds. */
  ghost predicate OpenedFor(store: Store, searched: seq<Handle>, n: Namespace, key: Key) {
    exists h | h in searched :: h.namespace == n && h.key == key && store.answer(h.call, n, key).Opens?
  }

  lemma EntryIsSearched(config: Config, history: seq<Entry>, store: Store, k: nat)
    requires var r := OpenSet(config, history, store); r.OpenedSet? && RefusedIds(r.history) == []
    requires k < |history|
    ensures OpenedFor(store, Searched(OpenSet(config, history, store)), HistoryNamespace(history[k]), history[k].key)
  {
    HistoryIsListed(config, history, store, k);
    ListedEntryIsSearched(store, history, k, OpenSet(config, history, store));
  }

  lemma ListedEntryIsSearched(store: Store, history: seq<Entry>, k: nat, r: OpenResult)
    requires r.OpenedSet? && RefusedIds(r.history) == [] && k < |history| <= |r.history|
    requires r.history[|r.history| - |history| + k] == HistoryState(store, history, k)
    ensures OpenedFor(store, Searched(r), HistoryNamespace(history[k]), history[k].key)
  {
    StateIsSearched(r, |r.history| - |history| + k);
    EntryHandle(store, history, k);
    HandleServes(store, Searched(r), HistoryState(store, history, k).journal.value.handle);
  }

  lemma HandleServes(store: Store, searched: seq<Handle>, h: Handle)
    requires h in searched && store.answer(h.call, h.namespace, h.key).Opens?
    ensures OpenedFor(store, searched, h.namespace, h.key)
  {
  }

  // --- Recover-only journals -------------------------------------------------------------------------------------

  datatype Call = ReserveIntent(body: nat) | MarkDispatch(body: nat) | CommitTerminal(body: nat)
    | Lookup(body: nat) | FindByOperation(body: nat) | Close

  datatype Answer = AdmissionExpired | FromStore(body: nat)

  predicate Admits(c: Call) { c.ReserveIntent? || c.MarkDispatch? }

  /** A journal behind the wrapper: its answer may depend on every call it has seen. */
  type Inner = seq<Call> -> nat

  datatype Wrapper = Wrapper(passed: seq<Call>, answers: seq<Answer>)

  function Wrap(inner: Inner, w: Wrapper, c: Call): Wrapper {
    if Admits(c) then w.(answers := w.answers + [AdmissionExpired])
    else
      var passed := w.passed + [c];
      Wrapper(passed, w.answers + [FromStore(inner(passed))])
  }

  function WrapRun(inner: Inner, calls: seq<Call>): Wrapper {
    if calls == [] then Wrapper([], [])
    else Wrap(inner, WrapRun(inner, calls[..|calls| - 1]), calls[|calls| - 1])
  }

  /** The calls that neither reserve an intent nor mark a dispatch. */
  function Recovering(calls: seq<Call>): seq<Call> {
    if calls == [] then []
    else
      var last := calls[|calls| - 1];
      Recovering(calls[..|calls| - 1]) + (if Admits(last) then [] else [last])
  }

  /** Call `k` is refused when it admits, and otherwise answered as if the admitting ones were not made. */
  predicate AnsweredAlone(inner: Inner, calls: seq<Call>, answers: seq<Answer>, k: nat)
    requires k < |calls| && k < |answers|
  {
    answers[k] == if Admits(calls[k]) then AdmissionExpired else FromStore(inner(Recovering(calls[..k + 1])))
  }

  /** Over any run the store sees the recovering calls alone, and answers as if no others were made. */
  lemma {:induction false} RecoverOnlyNeverAdmits(inner: Inner, calls: seq<Call>)
    ensures var w := WrapRun(inner, calls);
      && w.passed == Recovering(calls)
      && (forall c | c in w.passed :: !Admits(c))
      && |w.answers| == |calls|
      && (forall k :: 0 <= k < |calls| ==> AnsweredAlone(inner, calls, w.answers, k))
  {
    if calls != [] {
      var n := |calls| - 1;
      var before := calls[..n];
      RecoverOnlyNeverAdmits(inner, before);
      var answers := WrapRun(inner, calls).answers;
      assert calls[..n + 1] == calls;
      assert AnsweredAlone(inner, calls, answers, n);
      forall k | 0 <= k < n ensures AnsweredAlone(inner, calls, answers, k) {
        assert AnsweredAlone(inner, before, WrapRun(inner, before).answers, k);
        assert before[..k + 1] == calls[..k + 1];
      }
    }
  }

  // --- What the opened journals take ------------------------------------------------------------------------------

  /** A run of calls on a journal as it is given out. */
  function Use(inner: Inner, j: Journal, calls: seq<Call>): Wrapper {
    if j.recoverOnly then WrapRun(inner, calls) else DirectRun(inner, calls)
  }

  function DirectRun(inner: Inner, calls: seq<Call>): Wrapper {
    if calls == [] then Wrapper([], [])
    else
      var before := DirectRun(inner, calls[..|calls| - 1]);
      Wrapper(calls, before.answers + [FromStore(inner(calls))])
  }

  lemma HistoryIsWrapped(config: Config, history: seq<Entry>, store: Store, k: nat)
    requires OpenSet(config, history, store).OpenedSet? && k < |OpenSet(config, history, store).history|
    ensures var state := OpenSet(config, history, store).history[k];
      state.journal.Some? ==> state.journal.value.recoverOnly
  {
    var r := OpenSet(config, history, store);
    var skipped := |r.history| - |history|;
    if skipped >= 0 && k >= skipped { HistoryIsListed(config, history, store, k - skipped); }
  }

  /** Every journal of the history, the current one past its horizon included, passes no intent and no
    * dispatch mark to the store over any run of calls, and passes everything else. */
  lemma HistoryTakesNoIntent(
    config: Config, history: seq<Entry>, store: Store, k: nat, inner: Inner, calls: seq<Call>)
    requires OpenSet(config, history, store).OpenedSet? && k < |OpenSet(config, history, store).history|
    ensures var state := OpenSet(config, history, store).history[k];
      state.journal.Some? ==>
        var passed := Use(inner, state.journal.value, calls).passed;
        passed == Recovering(calls) && forall c | c in passed :: !Admits(c)
  {
    HistoryIsWrapped(config, history, store, k);
    RecoverOnlyNeverAdmits(inner, calls);
  }
}
