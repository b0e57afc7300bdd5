/** One autofill run against its ports: guarded reads, pinned scope, and dispatched writes (autofill.ts).
  *
  * The page is arbitrary: its next view may depend on the time and on every act so far, its answer to
  * an act on that act as well, and authority may be lost between any two steps.
  */
module AutofillPorts {
  import opened Options
  import opened AutofillPage

  // --- The environment -------------------------------------------------------------------------------

  datatype Action = Click(ref: string) | TypeText(ref: string, text: string) | Fill(ref: string, text: string)
    | Select(ref: string, choice: string)

  /** One act sent to the page: for which field, after how long, at which step, and whether it signalled its
    * dispatch. */
  datatype Act = Act(field: nat, action: Action, at: int, when: nat, signalled: bool)

  datatype View = View(elements: seq<Element>, url: Option<string>, incomplete: bool)

  datatype Sight = Sees(view: View) | SightFails(code: Code)

  datatype Answer = Answer(signalled: bool, threw: Option<Code>, navigation: bool, success: bool)

  /** Everything outside the run, by step number: authority, elapsed time, views, answers, the private
    * value behind a field's text when it can be resolved, the length a list of values
    * encodes to, and whether a snapshot succeeds. */
  datatype Page = Page(
    lost: nat -> Option<Code>,
    elapsed: nat -> int,
    view: (nat, seq<Act>) -> Sight,
    answer: (nat, seq<Act>, Action) -> Answer,
    secret: string -> Option<string>,
    jsonLength: seq<string> -> nat,
    snapshot: nat -> bool)

  // --- The run's own state ------------------------------------------------------------------------------

  datatype Pin = Pin(node: string, block: string)

  type Pins = map<nat, Pin>

  /** `proof` is history: the step of the run's last successful observation. */
  datatype Run = Run(
    tick: nat, acts: seq<Act>, blocks: Blocks, pins: Pins, scopeValid: bool, stage: nat, proof: Option<nat>)

  function Start(req: Request): Run { Run(0, [], map[], map[], req.scope.None?, 0, None) }

  datatype Step<+T> = Step(run: Run, out: Result<T>)

  // --- Guarded reads --------------------------------------------------------------------------------------

  /** Authority first, then the deadline. */
  function Guard(page: Page, req: Request, s: Run): Step<bool> {
    var r := s.(tick := s.tick + 1);
    var lost := page.lost(s.tick);
    if lost.Some? then Step(r, Err(Failure(false, lost.value)))
    else if page.elapsed(s.tick) >= req.policy.timeoutMs then Step(r, Own(ActionTimeout))
    else Step(r, Ok(true))
  }

  predicate Qualified(e: Element, f: Field) {
    Truthy(e.evidence.node) && e.evidence.block.Some? && e.visible && e.enabled && StrategyFor(e, f).Some?
  }

  function PinOf(e: Element): Pin
    requires e.evidence.node.Some? && e.evidence.block.Some?
  {
    Pin(e.evidence.node.value, e.evidence.block.value)
  }

  /** One field of the stage: find it, qualify it, keep it distinct, and hold it to its pin. */
  function CheckOne(req: Request, elements: seq<Element>, k: nat, nodes: set<string>, s: Run): Step<Pin>
    requires k < |req.fields|
  {
    var found := Resolve(elements, req.fields[k].selector, s.blocks);
    var at := s.(stage := k, blocks := found.blocks);
    if found.element.Err? then Step(at, Err(found.element.failure))
    else
      var e := found.element.value;
      if !Qualified(e, req.fields[k]) then Step(at, Own(EngineUnsupported))
      else if e.evidence.node.value in nodes then Step(at, Own(TargetAmbiguous))
      else if k in s.pins && s.pins[k] != PinOf(e) then Step(at, Own(StaleTarget))
      else Step(at.(pins := s.pins[k := PinOf(e)]), Ok(PinOf(e)))
  }

  /** Field after field. */
  function CheckStage(req: Request, elements: seq<Element>, k: nat, nodes: set<string>, s: Run): Step<bool>
    requires k <= |req.fields|
    decreases |req.fields| - k
  {
    if k == |req.fields| then Step(s, Ok(true))
    else
      var one := CheckOne(req, elements, k, nodes, s);
      if one.out.Err? then Step(one.run, Err(one.out.failure))
      else CheckStage(req, elements, k + 1, nodes + {one.out.value.node}, one.run)
  }

  /** Validate the mapped stage against one view. */
  function Validate(req: Request, url: string, view: View, s: Run): Step<bool> {
    if view.url != Some(url) then Step(s, Own(FormScopeMismatch))
    else
      var checked := CheckStage(req, view.elements, 0, {}, s);
      if checked.out.Err? then checked
      else Step(checked.run.(scopeValid := true), Ok(true))
  }

  datatype Glimpse = Glimpse(at: nat, view: View)

  /** A guarded look at the page, refused when incomplete. */
  function Look(page: Page, req: Request, s: Run): Step<Glimpse> {
    var before := Guard(page, req, s);
    if before.out.Err? then Step(before.run, Err(before.out.failure))
    else
      var t := before.run.tick;
      var looked := before.run.(tick := t + 1);
      match page.view(t, s.acts)
      case SightFails(code) => Step(looked, Err(Failure(false, code)))
      case Sees(view) =>
        var after := Guard(page, req, looked);
        if after.out.Err? then Step(after.run, Err(after.out.failure))
        else if view.incomplete then Step(after.run, Own(OutputTruncated))
        else Step(after.run, Ok(Glimpse(t, view)))
  }

  /** A fresh, complete observation; in a scoped run, one that validates the whole stage again. */
  function Observe(page: Page, req: Request, s: Run): Step<seq<Element>> {
    var look := Look(page, req, s.(stage := 0, scopeValid := s.scopeValid && req.scope.None?));
    if look.out.Err? then Step(look.run, Err(look.out.failure))
    else if req.scope.None? then Step(look.run.(proof := Some(look.out.value.at)), Ok(look.out.value.view.elements))
    else
      var valid := Validate(req, req.scope.value, look.out.value.view, look.run);
      if valid.out.Err? then Step(valid.run, Err(valid.out.failure))
      else Step(valid.run.(proof := Some(look.out.value.at)), Ok(look.out.value.view.elements))
  }

  /** The recheck a durable run calls before its first effect: it looks, compares, and writes nothing. */
  function Recheck(page: Page, req: Request, identities: seq<string>, s: Run): Step<bool> {
    var look := Look(page, req, s);
    if look.out.Err? then Step(look.run, Err(look.out.failure))
    else
      var elements := look.out.value.view.elements;
      match req.scope
      case None => Step(look.run, if AllReady(elements, identities) then Ok(true) else Own(StaleTarget))
      case Some(url) =>
        if look.out.value.view.url != Some(url) then Step(look.run, Own(FormScopeMismatch))
        else
          var fault := StageFault(req, elements, s.pins, s.blocks, 0);
          Step(look.run, if fault.None? then Ok(true) else Own(fault.value))
  }

  // --- The recheck ------------------------------------------------------------------------------------------

  /** Why a field is no longer on its own pin, if so; the run's blocks are read, never pinned. */
  function StageFault(req: Request, elements: seq<Element>, pins: Pins, blocks: Blocks, k: nat): Option<Code>
    requires k <= |req.fields|
    decreases |req.fields| - k
  {
    if k == |req.fields| then None
    else
      var found := Resolve(elements, req.fields[k].selector, blocks);
      if k !in pins then Some(StaleTarget)
      else if found.element.Err? then Some(found.element.failure.code)
      else if !Qualified(found.element.value, req.fields[k]) || PinOf(found.element.value) != pins[k]
      then Some(StaleTarget)
      else StageFault(req, elements, pins, blocks, k + 1)
  }

  function ByNode(elements: seq<Element>, node: string): Option<Element> {
    if elements == [] then None
    else if elements[0].evidence.node == Some(node) then Some(elements[0])
    else ByNode(elements[1..], node)
  }

  /** Every node the run has committed to is still there and ready. */
  predicate AllReady(elements: seq<Element>, identities: seq<string>) {
    forall n | n in identities ::
      ByNode(elements, n).Some? && ByNode(elements, n).value.visible && ByNode(elements, n).value.enabled
  }

  // --- Writes ---------------------------------------------------------------------------------------------------

  datatype Progress = NotStarted | Dispatched | Completed

  /** One field's execution: the run, how far its write got, and what it left on the receipt. */
  datatype Exec = Exec(run: Run, progress: Progress, navigation: bool, removed: seq<string>, added: seq<string>)

  datatype Did<+T> = Did(exec: Exec, out: Result<T>)

  function Signal(p: Progress, signalled: bool): Progress {
    if signalled && p.NotStarted? then Dispatched else p
  }

  /** Send one act.  The scope is void from here on, until an observation validates it again. */
  function Send(page: Page, req: Request, i: nat, at: int, e: Exec, action: Action): Exec {
    var s := e.run;
    var answer := page.answer(s.tick, s.acts, action);
    e.(run := s.(tick := s.tick + 1,
                 acts := s.acts + [Act(i, action, at, s.tick, answer.signalled)],
                 scopeValid := s.scopeValid && req.scope.None?),
       progress := Signal(e.progress, answer.signalled),
       navigation := e.navigation || answer.navigation)
  }

  /** Guard, send, and read the answer: a blocked navigation stops the field. */
  function Dispatch(page: Page, req: Request, i: nat, widget: bool, e: Exec, action: Action): Did<bool> {
    var before := Guard(page, req, e.run);
    if before.out.Err? then Did(e.(run := before.run), before.out)
    else
      var ready := e.(run := before.run);
      var sent := Send(page, req, i, page.elapsed(e.run.tick), ready, action);
      var answer := page.answer(before.run.tick, before.run.acts, action);
      if answer.threw.Some? then Did(sent, Err(Failure(false, answer.threw.value)))
      else if answer.navigation then
        var done := !widget && !sent.progress.NotStarted? && answer.success;
        Did(if done then sent.(progress := Completed) else sent, Own(NavigationBlocked))
      else
        var after := Guard(page, req, sent.run);
        Did(sent.(run := after.run), after.out)
  }

  // --- What every step keeps -------------------------------------------------------------------------------------

  /** At most `n` acts more, all of field `i`, each sent while time was left. */
  predicate Grew(was: seq<Act>, now: seq<Act>, i: nat, n: nat, timeoutMs: int) {
    && |was| <= |now| <= |was| + n
    && now[..|was|] == was
    && forall k :: |was| <= k < |now| ==> now[k].field == i && now[k].at < timeoutMs
  }

  predicate PinsHold(req: Request, pins: Pins) {
    && (forall k | k in pins :: k < |req.fields| && forall j | 0 <= j < k :: j in pins)
    && (forall j, k | j in pins && k in pins && j != k :: pins[j].node != pins[k].node)
  }

  predicate PinsKept(was: Pins, now: Pins) {
    forall k | k in was :: k in now && now[k] == was[k]
  }

  /** On this view, one position answers the field's selector, and what is there is qualified and on its pin. */
  ghost predicate FieldProven(elements: seq<Element>, f: Field, pin: Pin) {
    exists k: nat :: OnlyAt(elements, f.selector, k) && Qualified(elements[k], f) && PinOf(elements[k]) == pin
  }

  /** One view, taken after all of these acts, showed the whole stage on its pins. */
  ghost predicate StageProven(page: Page, req: Request, t: nat, acts: seq<Act>, pins: Pins) {
    && page.view(t, acts).Sees?
    && !page.view(t, acts).view.incomplete
    && page.view(t, acts).view.url == req.scope
    && forall k :: 0 <= k < |req.fields| ==>
      k in pins && FieldProven(page.view(t, acts).view.elements, req.fields[k], pins[k])
  }

  /** Acts so far were sent one after another, before now. */
  predicate Timed(s: Run) {
    && (forall k :: 0 <= k < |s.acts| ==> s.acts[k].when < s.tick)
    && (forall j, k :: 0 <= j < k < |s.acts| ==> s.acts[j].when < s.acts[k].when)
  }

  /** The run's last successful observation looked at this step, after every act. */
  predicate LastLook(s: Run, t: nat) {
    s.proof == Some(t) && t < s.tick && forall k :: 0 <= k < |s.acts| ==> s.acts[k].when < t
  }

  /** The whole stage was on its pins when the run last looked, after its last act. */
  ghost predicate StageRevalidated(page: Page, req: Request, s: Run) {
    s.proof.Some? && LastLook(s, s.proof.value) && StageProven(page, req, s.proof.value, s.acts, s.pins)
  }

  /** A valid scope rests on the run's last look, made after the last act. */
  ghost predicate ScopeHolds(page: Page, req: Request, s: Run) {
    Timed(s) && (req.scope.Some? && s.scopeValid ==> StageRevalidated(page, req, s))
  }

  /** Acts added were sent in between. */
  predicate Placed(s: Run, r: Run) {
    forall k :: |s.acts| <= k < |r.acts| ==> s.tick <= r.acts[k].when < r.tick
  }

  /** What every stretch of a field's work keeps, whatever the page does. */
  ghost predicate Kept(page: Page, req: Request, i: nat, n: nat, s: Run, r: Run) {
    Grew(s.acts, r.acts, i, n, req.policy.timeoutMs) && Placed(s, r) && StateKept(page, req, s, r)
  }

  /** Pins and blocks once set stay, pins stay distinct, and a valid scope keeps its proof. */
  ghost predicate StateKept(page: Page, req: Request, s: Run, r: Run) {
    && s.tick <= r.tick
    && PinsKept(s.pins, r.pins)
    && BlocksKept(s.blocks, r.blocks)
    && (PinsHold(req, s.pins) ==> PinsHold(req, r.pins))
    && (ScopeHolds(page, req, s) ==> ScopeHolds(page, req, r))
  }

  lemma GrewTrans(a: seq<Act>, b: seq<Act>, c: seq<Act>, i: nat, m: nat, n: nat, timeoutMs: int)
    requires Grew(a, b, i, m, timeoutMs) && Grew(b, c, i, n, timeoutMs)
    ensures Grew(a, c, i, m + n, timeoutMs)
  {
    assert c[..|a|] == b[..|a|];
    assert forall k :: |a| <= k < |b| ==> c[k] == b[k];
  }

  lemma KeptTrans(page: Page, req: Request, i: nat, m: nat, n: nat, s: Run, q: Run, r: Run)
    requires Kept(page, req, i, m, s, q) && Kept(page, req, i, n, q, r)
    ensures Kept(page, req, i, m + n, s, r)
  {
    GrewTrans(s.acts, q.acts, r.acts, i, m, n, req.policy.timeoutMs);
    PlacedTrans(s, q, r);
  }

  lemma PlacedTrans(s: Run, q: Run, r: Run)
    requires |s.acts| <= |q.acts| <= |r.acts| && r.acts[..|q.acts|] == q.acts && s.tick <= q.tick <= r.tick
    requires Placed(s, q) && Placed(q, r)
    ensures Placed(s, r)
  {
    assert forall k :: 0 <= k < |q.acts| ==> r.acts[k] == r.acts[..|q.acts|][k];
  }

  lemma GuardKeeps(page: Page, req: Request, i: nat, s: Run)
    ensures Kept(page, req, i, 0, s, Guard(page, req, s).run)
    ensures var r := Guard(page, req, s).run;
      r.acts == s.acts && r.pins == s.pins && r.blocks == s.blocks && r.scopeValid == s.scopeValid && r.proof == s.proof
  {
    GuardOnlyWaits(page, req, s);
    WaitingKeeps(page, req, i, s, s.tick + 1);
  }

  lemma GuardOnlyWaits(page: Page, req: Request, s: Run)
    ensures Guard(page, req, s).run == s.(tick := s.tick + 1)
  {
  }

  /** Time passing keeps everything. */
  lemma WaitingKeeps(page: Page, req: Request, i: nat, s: Run, tick: nat)
    requires s.tick <= tick
    ensures Kept(page, req, i, 0, s, s.(tick := tick))
  {
    assert LastLook(s, 0) ==> LastLook(s.(tick := tick), 0);
  }

  function NodesBelow(pins: Pins, k: nat): set<string> {
    set j | 0 <= j < k && j in pins :: pins[j].node
  }

  lemma NewPinHolds(req: Request, pins: Pins, k: nat, pin: Pin)
    requires PinsHold(req, pins) && k < |req.fields| && k !in pins
    requires forall j | 0 <= j < k :: j in pins
    requires pin.node !in NodesBelow(pins, k)
    ensures PinsHold(req, pins[k := pin])
  {
    assert forall j | j in pins :: j < k;
    assert forall j | j in pins :: pins[j].node in NodesBelow(pins, k);
  }

  /** A found and qualified element is proof of its field. */
  lemma FoundIsProven(elements: seq<Element>, f: Field, blocks: Blocks)
    requires Resolve(elements, f.selector, blocks).element.Ok?
    requires Qualified(Resolve(elements, f.selector, blocks).element.value, f)
    ensures FieldProven(elements, f, PinOf(Resolve(elements, f.selector, blocks).element.value))
  {
    var k := ResolvedAt(elements, f.selector, blocks);
    assert OnlyAt(elements, f.selector, k);
  }

  /** One field's check: a pin that was there stays, and a new one is on a new node and proven. */
  lemma CheckOneKeeps(req: Request, elements: seq<Element>, k: nat, s: Run)
    requires k < |req.fields| && PinsHold(req, s.pins) && (forall j | 0 <= j < k :: j in s.pins)
    ensures var one := CheckOne(req, elements, k, NodesBelow(s.pins, k), s);
      && PinsKept(s.pins, one.run.pins) && PinsHold(req, one.run.pins)
      && (one.out.Ok? ==>
        && k in one.run.pins && one.run.pins[k] == one.out.value
        && FieldProven(elements, req.fields[k], one.out.value)
        && NodesBelow(one.run.pins, k + 1) == NodesBelow(s.pins, k) + {one.out.value.node})
  {
    var one := CheckOne(req, elements, k, NodesBelow(s.pins, k), s);
    if one.out.Ok? {
      var pin := one.out.value;
      FoundIsProven(elements, req.fields[k], s.blocks);
      NodesGrow(s.pins, k, pin);
      if k in s.pins { assert s.pins[k := pin] == s.pins; } else { NewPinHolds(req, s.pins, k, pin); }
    }
  }

  lemma CheckOneTouches(req: Request, elements: seq<Element>, k: nat, nodes: set<string>, s: Run)
    requires k < |req.fields|
    ensures var one := CheckOne(req, elements, k, nodes, s);
      && Touched(s, one.run)
      && BlocksKept(s.blocks, one.run.blocks)
      && (one.out.Ok? ==> BlockPinned(req.fields[k].selector, one.run.blocks))
  {
    ResolveKeepsBlocks(elements, req.fields[k].selector, s.blocks);
  }

  /** The stage check only adds distinct pins, and passes only with every field proven on its pin. */
  lemma {:induction false} CheckStageKeepsPins(
    req: Request, elements: seq<Element>, k: nat, nodes: set<string>, s: Run)
    requires k <= |req.fields| && PinsHold(req, s.pins)
    requires forall j | 0 <= j < k :: j in s.pins
    requires nodes == NodesBelow(s.pins, k)
    ensures var r := CheckStage(req, elements, k, nodes, s);
      && PinsKept(s.pins, r.run.pins) && PinsHold(req, r.run.pins)
      && (r.out.Ok? ==> forall j | k <= j < |req.fields| ::
        j in r.run.pins && FieldProven(elements, req.fields[j], r.run.pins[j]))
    decreases |req.fields| - k
  {
    if k < |req.fields| {
      var one := CheckOne(req, elements, k, nodes, s);
      CheckOneKeeps(req, elements, k, s);
      if one.out.Ok? { CheckStageKeepsPins(req, elements, k + 1, nodes + {one.out.value.node}, one.run); }
    }
  }

  lemma NodesGrow(pins: Pins, k: nat, pin: Pin)
    requires k in pins ==> pins[k] == pin
    ensures NodesBelow(pins[k := pin], k + 1) == NodesBelow(pins, k) + {pin.node}
  {
    var more := pins[k := pin];
    forall x | x in NodesBelow(pins, k) + {pin.node} ensures x in NodesBelow(more, k + 1) {
      if x == pin.node {
        assert more[k].node == x;
      } else {
        var j :| 0 <= j < k && j in pins && pins[j].node == x;
        assert more[j].node == x;
      }
    }
  }

  predicate BlockPinned(m: Match, blocks: Blocks) { m.block.Some? ==> m.block.value in blocks }

  predicate Touched(s: Run, r: Run) {
    r.tick == s.tick && r.acts == s.acts && r.scopeValid == s.scopeValid && r.proof == s.proof
  }

  lemma BlocksKeptTrans(a: Blocks, b: Blocks, c: Blocks)
    requires BlocksKept(a, b) && BlocksKept(b, c)
    ensures BlocksKept(a, c)
  {
  }

  /** The stage check touches pins, blocks and its position, nothing else. */
  lemma {:induction false} CheckStageKeepsRest(
    req: Request, elements: seq<Element>, k: nat, nodes: set<string>, s: Run)
    requires k <= |req.fields|
    ensures var r := CheckStage(req, elements, k, nodes, s).run;
      Touched(s, r) && BlocksKept(s.blocks, r.blocks)
    decreases |req.fields| - k
  {
    if k < |req.fields| {
      var one := CheckOne(req, elements, k, nodes, s);
      CheckOneTouches(req, elements, k, nodes, s);
      if one.out.Ok? {
        CheckStageKeepsRest(req, elements, k + 1, nodes + {one.out.value.node}, one.run);
        BlocksKeptTrans(s.blocks, one.run.blocks, CheckStage(req, elements, k, nodes, s).run.blocks);
      }
    }
  }

  ghost predicate BlocksPinned(req: Request, k: nat, blocks: Blocks) {
    forall j :: k <= j < |req.fields| ==> BlockPinned(req.fields[j].selector, blocks)
  }

  lemma OneMoreBlock(req: Request, k: nat, was: Blocks, now: Blocks)
    requires k < |req.fields| && BlockPinned(req.fields[k].selector, was) && BlocksKept(was, now)
    requires BlocksPinned(req, k + 1, now)
    ensures BlocksPinned(req, k, now)
  {
  }

  /** What a stage check from field `k` on does to the blocks. */
  ghost predicate PinsBlocks(req: Request, k: nat, was: Blocks, r: Step<bool>) {
    BlocksKept(was, r.run.blocks) && (r.out.Ok? ==> BlocksPinned(req, k, r.run.blocks))
  }

  lemma PinsBlocksStep(req: Request, k: nat, was: Blocks, mid: Blocks, r: Step<bool>)
    requires k < |req.fields| && BlocksKept(was, mid) && BlockPinned(req.fields[k].selector, mid)
    requires PinsBlocks(req, k + 1, mid, r)
    ensures PinsBlocks(req, k, was, r)
  {
    BlocksKeptTrans(was, mid, r.run.blocks);
    if r.out.Ok? { OneMoreBlock(req, k, mid, r.run.blocks); }
  }

  /** A stage check that passes has pinned the block of every field it read. */
  lemma {:induction false} CheckStagePinsBlocks(
    req: Request, elements: seq<Element>, k: nat, nodes: set<string>, s: Run)
    requires k <= |req.fields|
    ensures PinsBlocks(req, k, s.blocks, CheckStage(req, elements, k, nodes, s))
    decreases |req.fields| - k
  {
    if k < |req.fields| {
      var one := CheckOne(req, elements, k, nodes, s);
      CheckOneTouches(req, elements, k, nodes, s);
      if one.out.Ok? {
        CheckStagePinsBlocks(req, elements, k + 1, nodes + {one.out.value.node}, one.run);
        PinsBlocksStep(req, k, s.blocks, one.run.blocks, CheckStage(req, elements, k, nodes, s));
      }
    }
  }

  /** Validation touches pins, blocks, position and the scope flag, and passes only on a proven stage. */
  lemma ValidateKeeps(page: Page, req: Request, t: nat, s: Run)
    requires req.scope.Some? && PinsHold(req, s.pins)
    requires page.view(t, s.acts).Sees? && !page.view(t, s.acts).view.incomplete
    ensures var r := Validate(req, req.scope.value, page.view(t, s.acts).view, s);
      && r.run.tick == s.tick && r.run.acts == s.acts && r.run.proof == s.proof
      && PinsKept(s.pins, r.run.pins) && PinsHold(req, r.run.pins) && BlocksKept(s.blocks, r.run.blocks)
      && (r.out.Ok? ==> r.run.scopeValid && StageProven(page, req, t, s.acts, r.run.pins))
      && (r.out.Err? ==> r.run.scopeValid == s.scopeValid)
  {
    var view := page.view(t, s.acts).view;
    assert NodesBelow(s.pins, 0) == {};
    CheckStageKeepsPins(req, view.elements, 0, {}, s);
    CheckStageKeepsRest(req, view.elements, 0, {}, s);
  }

  /** What a glimpse shows was on the page, complete, at that moment, after all acts so far. */
  ghost predicate Shown(page: Page, acts: seq<Act>, t: nat, view: View) {
    page.view(t, acts) == Sees(view) && !view.incomplete
  }

  /** Looking only takes time. */
  lemma LookEffect(page: Page, req: Request, s: Run)
    ensures var r := Look(page, req, s);
      && s.tick < r.run.tick && r.run == s.(tick := r.run.tick)
      && (r.out.Ok? ==> s.tick <= r.out.value.at < r.run.tick && Shown(page, s.acts, r.out.value.at, r.out.value.view))
  {
  }

  /** An observation's run: acts untouched, no pin changed, and in a scoped run valid only with proof. */
  lemma ObserveEffect(page: Page, req: Request, s: Run)
    requires PinsHold(req, s.pins)
    ensures var r := Observe(page, req, s).run;
      && s.tick < r.tick && r.acts == s.acts
      && PinsKept(s.pins, r.pins) && PinsHold(req, r.pins) && BlocksKept(s.blocks, r.blocks)
      && (req.scope.None? ==> r.pins == s.pins && r.scopeValid == s.scopeValid && r.blocks == s.blocks)
    ensures var r := Observe(page, req, s);
      && (req.scope.Some? ==> (r.run.scopeValid <==> r.out.Ok?))
      && (r.out.Ok? && req.scope.Some? ==>
        r.run.proof.Some? && StageProven(page, req, r.run.proof.value, r.run.acts, r.run.pins))
      && (r.out.Ok? && req.scope.Some? && Timed(s) ==> ScopeHolds(page, req, r.run))
  {
    var opening := s.(stage := 0, scopeValid := s.scopeValid && req.scope.None?);
    LookEffect(page, req, opening);
    var look := Look(page, req, opening);
    if look.out.Ok? && req.scope.Some? { ValidateKeeps(page, req, look.out.value.at, look.run); }
  }

  /** What an observation returns was on the page, complete, after all acts so far. */
  lemma ObservedIsShown(page: Page, req: Request, s: Run) returns (t: nat, view: View)
    requires Observe(page, req, s).out.Ok?
    ensures var r := Observe(page, req, s).run; s.tick <= t < r.tick && r.proof == Some(t) && Shown(page, s.acts, t, view)
    ensures Observe(page, req, s).out.value == view.elements
  {
    var opening := s.(stage := 0, scopeValid := s.scopeValid && req.scope.None?);
    LookEffect(page, req, opening);
    var look := Look(page, req, opening);
    t, view := look.out.value.at, look.out.value.view;
    if req.scope.Some? { CheckStageKeepsRest(req, view.elements, 0, {}, look.run); }
  }

  /** The recheck writes nothing of the run. */
  lemma RecheckOnlyLooks(page: Page, req: Request, identities: seq<string>, s: Run)
    ensures var r := Recheck(page, req, identities, s).run; r == s.(tick := r.tick) && s.tick < r.tick
  {
    LookEffect(page, req, s);
  }

  /** Observing keeps everything, whatever the page shows. */
  lemma ObserveKeeps(page: Page, req: Request, i: nat, s: Run)
    requires PinsHold(req, s.pins)
    ensures Kept(page, req, i, 0, s, Observe(page, req, s).run)
  {
    ObserveEffect(page, req, s);
  }

  lemma SendIsTimed(page: Page, req: Request, i: nat, at: int, e: Exec, action: Action)
    requires Timed(e.run)
    ensures Timed(Send(page, req, i, at, e, action).run)
  {
  }

  /** Sending appends one timely act and voids the scope. */
  lemma SendKeeps(page: Page, req: Request, i: nat, at: int, e: Exec, action: Action)
    requires at < req.policy.timeoutMs
    ensures Kept(page, req, i, 1, e.run, Send(page, req, i, at, e, action).run)
  {
    if Timed(e.run) { SendIsTimed(page, req, i, at, e, action); }
  }

  /** A dispatch sends at most one act, only after a guard that found authority and time. */
  lemma DispatchKeeps(page: Page, req: Request, i: nat, widget: bool, e: Exec, action: Action)
    ensures Kept(page, req, i, 1, e.run, Dispatch(page, req, i, widget, e, action).exec.run)
  {
    var before := Guard(page, req, e.run);
    GuardKeeps(page, req, i, e.run);
    if before.out.Ok? {
      var ready := e.(run := before.run);
      var sent := Send(page, req, i, page.elapsed(e.run.tick), ready, action);
      SendKeeps(page, req, i, page.elapsed(e.run.tick), ready, action);
      KeptTrans(page, req, i, 0, 1, e.run, before.run, sent.run);
      GuardKeeps(page, req, i, sent.run);
      KeptTrans(page, req, i, 1, 0, e.run, sent.run, Guard(page, req, sent.run).run);
    }
  }

  // --- What the field's progress means ---------------------------------------------------------------------------

  /** No act from `n` on signalled its dispatch. */
  predicate Unsignalled(acts: seq<Act>, n: nat) {
    forall k :: n <= k < |acts| ==> !acts[k].signalled
  }

  /** A field still not started has signalled nothing since its work began at act `n`. */
  predicate ProgressHolds(e: Exec, n: nat) {
    e.progress.NotStarted? ==> Unsignalled(e.run.acts, n)
  }

  lemma SendKeepsProgress(page: Page, req: Request, i: nat, at: int, e: Exec, action: Action, n: nat)
    ensures var d := Send(page, req, i, at, e, action);
      && (ProgressHolds(e, n) ==> ProgressHolds(d, n))
      && (!e.progress.NotStarted? ==> !d.progress.NotStarted?)
      && (e.navigation ==> d.navigation)
      && d.removed == e.removed && d.added == e.added
  {
  }

  lemma DispatchKeepsProgress(page: Page, req: Request, i: nat, widget: bool, e: Exec, action: Action, n: nat)
    ensures ProgressHolds(e, n) ==> ProgressHolds(Dispatch(page, req, i, widget, e, action).exec, n)
    ensures var d := Dispatch(page, req, i, widget, e, action).exec;
      && (!e.progress.NotStarted? ==> !d.progress.NotStarted?)
      && (e.navigation ==> d.navigation)
      && d.removed == e.removed && d.added == e.added
  {
    var before := Guard(page, req, e.run);
    SendKeepsProgress(page, req, i, page.elapsed(e.run.tick), e.(run := before.run), action, n);
  }

  // --- The recheck agrees with an observation --------------------------------------------------------------------

  /** After preflight every field is pinned, its block with it. */
  ghost predicate Preflighted(req: Request, s: Run) {
    && PinsHold(req, s.pins)
    && (forall k :: 0 <= k < |req.fields| ==> k in s.pins)
    && (forall k :: 0 <= k < |req.fields| ==> BlockPinned(req.fields[k].selector, s.blocks))
  }

  lemma CheckOneAgrees(req: Request, elements: seq<Element>, k: nat, s: Run)
    requires k < |req.fields| && Preflighted(req, s)
    ensures var one := CheckOne(req, elements, k, NodesBelow(s.pins, k), s);
      && one.run == s.(stage := k)
      && (one.out.Ok? ==> one.out.value == s.pins[k])
      && (one.out.Ok? ==> NodesBelow(s.pins, k + 1) == NodesBelow(s.pins, k) + {one.out.value.node})
      && (one.out.Ok? <==> var found := Resolve(elements, req.fields[k].selector, s.blocks).element;
        found.Ok? && Qualified(found.value, req.fields[k]) && PinOf(found.value) == s.pins[k])
  {
    ResolveAgainKeepsBlocks(elements, req.fields[k].selector, s.blocks);
    assert s.pins[k := s.pins[k]] == s.pins;
    NodesGrow(s.pins, k, s.pins[k]);
    OwnNodeIsNew(req, s.pins, k);
  }

  /** What agreeing means from field `k` on. */
  predicate Agrees(req: Request, elements: seq<Element>, k: nat, s: Run, r: Step<bool>)
    requires k <= |req.fields|
  {
    && (StageFault(req, elements, s.pins, s.blocks, k).None? <==> r.out.Ok?)
    && r.run.pins == s.pins && r.run.blocks == s.blocks
  }

  lemma AgreesStep(req: Request, elements: seq<Element>, k: nat, s: Run, one: Step<Pin>, rest: Step<bool>)
    requires k < |req.fields| && k in s.pins && one.run == s.(stage := k)
    requires one.out.Ok? <==> var found := Resolve(elements, req.fields[k].selector, s.blocks).element;
      found.Ok? && Qualified(found.value, req.fields[k]) && PinOf(found.value) == s.pins[k]
    requires one.out.Ok? ==> Agrees(req, elements, k + 1, s.(stage := k), rest)
    ensures Agrees(req, elements, k, s, if one.out.Err? then Step(one.run, Err(one.out.failure)) else rest)
  {
  }

  /** On any view, the read-only recheck passes exactly when the run's own check would, and that check
    * would then change no pin and no block. */
  lemma {:induction false} RecheckAgrees(req: Request, elements: seq<Element>, k: nat, s: Run)
    requires k <= |req.fields| && Preflighted(req, s)
    ensures Agrees(req, elements, k, s, CheckStage(req, elements, k, NodesBelow(s.pins, k), s))
    decreases |req.fields| - k
  {
    if k < |req.fields| {
      CheckOneAgrees(req, elements, k, s);
      var one := CheckOne(req, elements, k, NodesBelow(s.pins, k), s);
      var rest := CheckStage(req, elements, k + 1, NodesBelow(s.pins, k + 1), s.(stage := k));
      if one.out.Ok? { RecheckAgrees(req, elements, k + 1, s.(stage := k)); }
      AgreesStep(req, elements, k, s, one, rest);
    }
  }

  lemma OwnNodeIsNew(req: Request, pins: Pins, k: nat)
    requires PinsHold(req, pins) && k in pins
    ensures pins[k].node !in NodesBelow(pins, k)
  {
  }

  /** A completed preflight pins every field, on distinct nodes, and every block. */
  lemma PreflightIsComplete(page: Page, req: Request, s: Run)
    requires req.scope.Some? && PinsHold(req, s.pins) && Observe(page, req, s).out.Ok?
    ensures Preflighted(req, Observe(page, req, s).run)
  {
    ObserveEffect(page, req, s);
    var look := Look(page, req, s.(stage := 0, scopeValid := s.scopeValid && req.scope.None?));
    CheckStagePinsBlocks(req, look.out.value.view.elements, 0, {}, look.run);
  }

  lemma PreflightedStays(page: Page, req: Request, s: Run, r: Run)
    requires Preflighted(req, s) && StateKept(page, req, s, r)
    ensures Preflighted(req, r)
  {
  }

  /** Validation after preflight repeats the recheck's comparison and changes no pin. */
  lemma ValidateAgrees(req: Request, url: string, view: View, s: Run)
    requires Preflighted(req, s)
    ensures var r := Validate(req, url, view, s);
      && r.run.pins == s.pins && r.run.blocks == s.blocks
      && (r.out.Ok? <==> view.url == Some(url) && StageFault(req, view.elements, s.pins, s.blocks, 0).None?)
  {
    assert NodesBelow(s.pins, 0) == {};
    RecheckAgrees(req, view.elements, 0, s);
  }

  /** After preflight the recheck passes exactly when the run's own observation would at that moment, and
    * that observation would then change no pin and no block. */
  lemma RecheckMatchesObserve(page: Page, req: Request, identities: seq<string>, s: Run)
    requires req.scope.Some? && Preflighted(req, s)
    ensures Recheck(page, req, identities, s).out.Ok? <==> Observe(page, req, s).out.Ok?
    ensures var r := Observe(page, req, s).run; r.pins == s.pins && r.blocks == s.blocks
  {
    var opening := s.(stage := 0, scopeValid := s.scopeValid && req.scope.None?);
    LookEffect(page, req, s);
    LookEffect(page, req, opening);
    LookIgnoresScope(page, req, s, opening);
    var look := Look(page, req, opening);
    if look.out.Ok? { ValidateAgrees(req, req.scope.value, look.out.value.view, look.run); }
  }

  lemma LookIgnoresScope(page: Page, req: Request, s: Run, r: Run)
    requires r.tick == s.tick && r.acts == s.acts
    ensures Look(page, req, r).out == Look(page, req, s).out && Look(page, req, r).run.tick == Look(page, req, s).run.tick
  {
    GuardIgnoresScope(page, req, s, r);
    GuardIgnoresScope(page, req, s.(tick := s.tick + 2), r.(tick := r.tick + 2));
  }

  lemma GuardIgnoresScope(page: Page, req: Request, s: Run, r: Run)
    requires r.tick == s.tick
    ensures Guard(page, req, r).out == Guard(page, req, s).out
    ensures Guard(page, req, s).run == s.(tick := s.tick + 1) && Guard(page, req, r).run == r.(tick := r.tick + 1)
  {
  }
}
